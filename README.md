# CryptoChartAnalyzer core, modelled in Dafny

This project models the core of the CryptoChartAnalyzer microservices and proves
properties of the model. The core has five parts:

- **Binance exchange client** (`binance_client.dfy`, with `query_text.dfy` and
  `exchange_models.dfy`). It has three pure mappings:
  - an interval to its Binance token;
  - a formatted request to the `/api/v3/klines` endpoint with its query string;
  - a positional 7-field JSON row to a candlestick.

  It also has two fail-soft calls. `GetKlineData` yields no candlesticks on a
  non-2xx status. `GetAllListedCoins` overwrites only the Binance slot of the
  caller's accumulator, and only on a 2xx status.
- **Coins repository** (`coins_repository.dfy`). It is a class `CoinsStore`:
  - coin rows in table order, keyed by an auto-increment id;
  - trading-pair rows;
  - the seeded exchange rows.

  Its queries are filters. Insert, update, delete-unreferenced and delete-all
  are methods with full frame conditions.
- **Multi-exchange fallback collector** (`exchanges_data_collector.dfy`). The
  request is formatted once. The exchange clients are then tried in order until
  one returns data. A call log records which clients were called.
- **Coin request validator** (`coins_validator.dfy`). It runs every check of a
  request batch:
  - duplicate (symbol, name);
  - missing id;
  - unknown exchange.

  All violations are folded into a single error of kind BadRequest or NotFound.
  The error holds a set of structured violations. A log records the repository
  queries issued.
- **Bridge kline collector** (`kline_data_collector.dfy`). It runs a nested loop
  over main coins × quote coins. For each pair it fetches klines, registers the
  trading pair and tags the records with the pair's id. It raises a warning
  exactly when nothing was collected.

Collaborators are values passed in:
- HTTP transport: a function from endpoint to response (status flag plus
  deserialised body).
- Exchange clients, the kline source and the trading-pair registry: functions.
- Repositories: the in-memory `CoinsStore`.

The time, the network and logging are not modelled. The warning is a returned
flag.

Where the code differs from the project's documentation, the model
follows the code:
- `BinanceClient.GetKlineData` returns an empty result only on a non-2xx
  status. A transport exception is not caught there.
- An undefined interval throws before any request is sent. This is modelled as
  `Failure(UnsupportedTimeFrame(..))`.
- A malformed kline row throws while the sequence is enumerated. This is
  modelled as `Failure(MalformedKlineRow(index))` for the first bad row.

The implementations of `ExchangesDataCollector`, `CoinsValidator` and
`KlineDataCollector` are not part of this model's sources. Their behaviour is
taken from their unit tests. In particular:
- the bridge collector is modelled as the full cross product of main and quote
  coins, registering every pair;
- with one quote coin (the case the unit tests set up), that is the same as stopping at the
  first quote coin with data.

The repository table keeps its rows in a sequence rather than a map from id to
row. Query results come back in table order. Ids are strictly ascending, so
each id names at most one row.

## Model

| member | source | states |
|---|---|---|
| `BinanceClient.ToBinanceTimeFrame` | src/SVC_Microservices/SVC_External/Clients/BinanceClient.cs:77-90 | fails exactly for an undefined interval, with that interval in the error; every one of the nine intervals gets a token |
| `BinanceClient.TimeFrameRoundTrip` | src/SVC_Microservices/SVC_External/Clients/BinanceClient.cs:80-88 | an interval maps to a token exactly when that token reads back as the interval (both directions) |
| `BinanceClient.TimeFrameInjective` | src/SVC_Microservices/SVC_External/Clients/BinanceClient.cs:80-88 | two intervals with the same token are the same interval |
| `BinanceClient.TimeFrameTokens` | src/SVC_Microservices/SVC_External/Clients/BinanceClient.cs:80-88 | the tokens are exactly "1m", "5m", "15m", "30m", "1h", "4h", "1d", "1w", "1M" |
| `BinanceClient.ToBinanceKlineEndpoint` | src/SVC_Microservices/SVC_External/Clients/BinanceClient.cs:70-75 | the endpoint fails exactly when the interval is undefined, with the interval error |
| `BinanceClient.KlineEndpointQuery` | src/SVC_Microservices/SVC_External/Clients/BinanceClient.cs:70-75 | the endpoint is `/api/v3/klines?` followed by five parameters that parse back, in order, as symbol = main ++ quote, interval (its token), limit, startTime, endTime |
| `BinanceClient.KlineEndpointParams` | src/SVC_Microservices/SVC_External/Clients/BinanceClient.cs:70-75 | the endpoint starts with `/api/v3/klines?` and its query parses back to exactly the five parameters, in the order they are written |
| `QueryText.IntToStringRoundTrip` | src/SVC_Microservices/SVC_External/Clients/BinanceClient.cs:73-75 | parsing the decimal text of an integer gives back the integer, negative ones included |
| `QueryText.IntToStringInjective` | src/SVC_Microservices/SVC_External/Clients/BinanceClient.cs:73-75 | different integers get different texts |
| `QueryText.ParseNatToString` | src/SVC_Microservices/SVC_External/Clients/BinanceClient.cs:73-75 | the digits of a natural number read back as that number |
| `QueryText.QueryRoundTrip` | src/SVC_Microservices/SVC_External/Clients/BinanceClient.cs:70-75 | a query string joined from `key=value` fields with `&` splits back into the same fields, in order, when keys are free of `&`/`=` and values free of `&` |
| `QueryText.SplitLast` | src/SVC_Microservices/SVC_External/Clients/BinanceClient.cs:70-75 | splitting `a ++ sep ++ b` (no separator in `b`) is the split of `a` followed by `b` |
| `QueryText.SplitNoSep` | src/SVC_Microservices/SVC_External/Clients/BinanceClient.cs:70-75 | a text without the separator splits into itself alone |
| `QueryText.SplitFirstAfter` | src/SVC_Microservices/SVC_External/Clients/BinanceClient.cs:70-75 | a field splits at its first `=` into key and value when the key has no `=` |
| `QueryText.ParseFieldsAppend` | src/SVC_Microservices/SVC_External/Clients/BinanceClient.cs:70-75 | parsing one more field appends exactly that field's key and value |
| `BinanceClient.GetInt64` | src/SVC_Microservices/SVC_External/Clients/BinanceClient.cs:97 | a decoded time is always within the 64-bit signed range |
| `BinanceClient.KlineRowRoundTrip` | src/SVC_Microservices/SVC_External/Clients/BinanceClient.cs:92-105 | a row in Binance's layout (times as numbers at 0 and 6, prices and volume as strings at 1-5) decodes back to its candlestick, whatever follows field 6 |
| `BinanceClient.ShortRowRejected` | src/SVC_Microservices/SVC_External/Clients/BinanceClient.cs:92-105 | a row with fewer than seven fields never decodes |
| `BinanceClient.ToKlineRows` | src/SVC_Microservices/SVC_External/Clients/BinanceClient.cs:33 | on success there is one candlestick per row, in row order, each the decoding of its row; failure happens exactly when some row does not decode, and names the first such row |
| `BinanceClient.KlineRowsRoundTrip` | src/SVC_Microservices/SVC_External/Clients/BinanceClient.cs:32-33 | a body of well-formed rows decodes to exactly the candlesticks it was made from |
| `BinanceClient.GetKlineData` | src/SVC_Microservices/SVC_External/Clients/BinanceClient.cs:22-34 | an undefined interval is an error before any request; a non-2xx response gives the empty sequence; a 2xx response gives the decoding of every row of the body from the endpoint of the request |
| `BinanceClient.Dedup` | src/SVC_Microservices/SVC_External/Clients/BinanceClient.cs:57-58 | the set of symbols holds exactly the symbols of the body, each once |
| `BinanceClient.ListedBaseAssetsDistinct` | src/SVC_Microservices/SVC_External/Clients/BinanceClient.cs:49-65 | the listed Binance coins are exactly the base assets of the body, each at most once |
| `BinanceClient.GetAllListedCoins` | src/SVC_Microservices/SVC_External/Clients/BinanceClient.cs:37-51 | returns the accumulator itself; on a non-2xx status nothing changes; on 2xx only the Binance slot changes, to the distinct base assets; the other exchanges' slots never change |
| `ExchangeModels.UnixEpochIsZero` | tests/SVC_Microservices/SVC_External.Tests.Unit/DataCollectors/ExchangesDataCollectorTests.cs:125-126 | the Unix epoch converts to 0 ms |
| `ExchangeModels.UnixTimeShift` | tests/SVC_Microservices/SVC_External.Tests.Unit/DataCollectors/ExchangesDataCollectorTests.cs:125-126 | a time later by `ms` whole milliseconds converts to `ms` more |
| `ExchangeModels.UnixTimeTruncates` | tests/SVC_Microservices/SVC_External.Tests.Unit/DataCollectors/ExchangesDataCollectorTests.cs:125-126 | ticks below a millisecond do not change the result |
| `ExchangeModels.UnixTimeMonotonic` | tests/SVC_Microservices/SVC_External.Tests.Unit/DataCollectors/ExchangesDataCollectorTests.cs:125-126 | a later time never converts to fewer milliseconds |
| `ExchangesDataCollector.ToFormattedRequest` | tests/SVC_Microservices/SVC_External.Tests.Unit/DataCollectors/ExchangesDataCollectorTests.cs:120-128 | main coin, quote coin, interval and limit are copied; start and end become their Unix-millisecond values |
| `ExchangesDataCollector.FormattedWindowOrdered` | tests/SVC_Microservices/SVC_External.Tests.Unit/DataCollectors/ExchangesDataCollectorTests.cs:120-128 | a start not after the end stays so after formatting |
| `ExchangesDataCollector.FirstNonEmptyEmpty` | tests/SVC_Microservices/SVC_External.Tests.Unit/DataCollectors/ExchangesDataCollectorTests.cs:102-116 | the reference result is empty exactly when every client returns nothing |
| `ExchangesDataCollector.FirstNonEmptyAt` | tests/SVC_Microservices/SVC_External.Tests.Unit/DataCollectors/ExchangesDataCollectorTests.cs:84-99 | when the clients before `i` return nothing and client `i` returns data, that data is the reference result |
| `ExchangesDataCollector.GetKlineData` | tests/SVC_Microservices/SVC_External.Tests.Unit/DataCollectors/ExchangesDataCollectorTests.cs:29-116 | the calls are a prefix of the clients, each called once with the same formatted request; all but the last called returned nothing; stopping early means data was found, and that data came from the last client called; no data means every client was called; the result is the first non-empty client result |
| `ExchangesDataCollector.FirstClientHasData` | tests/SVC_Microservices/SVC_External.Tests.Unit/DataCollectors/ExchangesDataCollectorTests.cs:47-62 | with data from the first of two clients, the result is that data |
| `ExchangesDataCollector.SecondClientFallback` | tests/SVC_Microservices/SVC_External.Tests.Unit/DataCollectors/ExchangesDataCollectorTests.cs:84-116 | with nothing from the first of two clients, the result is the second client's answer, empty or not |
| `CoinsRepository.CoinsWhere` | src/SVC_Microservices/SVC_Coins/Repositories/CoinsRepository.cs:101-105 | keeps exactly the rows the condition accepts and no others |
| `CoinsRepository.CoinsWhereAscending` | src/SVC_Microservices/SVC_Coins/Repositories/CoinsRepository.cs:28 | filtering keeps the table's ascending key order |
| `CoinsRepository.CoinsWhereNone` | src/SVC_Microservices/SVC_Coins/Repositories/CoinsRepository.cs:28 | a condition no row meets gives the empty result |
| `CoinsRepository.CoinsWhereSingle` | src/SVC_Microservices/SVC_Coins/Repositories/CoinsRepository.cs:28 | in an ascending table, a condition that holds for one key only gives exactly that row |
| `CoinsRepository.CoinsByIds` | src/SVC_Microservices/SVC_Coins/Repositories/CoinsRepository.cs:27-28 | exactly the rows whose id is requested, in table order; no ids, no rows |
| `CoinsRepository.LookupStoredRow` | src/SVC_Microservices/SVC_Coins/Repositories/CoinsRepository.cs:27-28 | asking for a stored row's id gives exactly that row |
| `CoinsRepository.CoinsStore.GetCoinsByIds` | src/SVC_Microservices/SVC_Coins/Repositories/CoinsRepository.cs:27-28 | exactly the stored coins whose id is requested; unknown ids are ignored |
| `CoinsRepository.PairsOfMain` | src/SVC_Microservices/SVC_Coins/Repositories/CoinsRepository.cs:22 | the trading pairs loaded with a coin are exactly those in which it is the main coin |
| `CoinsRepository.WithRelations` | src/SVC_Microservices/SVC_Coins/Repositories/CoinsRepository.cs:20-24 | one entry per row, in order, each with its row and that row's trading pairs |
| `CoinsRepository.CoinsStore.GetAllCoinsWithRelations` | src/SVC_Microservices/SVC_Coins/Repositories/CoinsRepository.cs:20-24 | every stored coin in table order, each with exactly the trading pairs it is the main coin of |
| `CoinsRepository.CoinsStore.GetCoinsByIdsWithRelations` | src/SVC_Microservices/SVC_Coins/Repositories/CoinsRepository.cs:31-39 | one entry per requested stored coin, each coin once, in table order (the entries follow the id lookup position by position, with ascending keys), each with exactly its trading pairs |
| `CoinsRepository.CoinsStore.CheckCoinExists` | src/SVC_Microservices/SVC_Coins/Repositories/CoinsRepository.cs:78-79 | true exactly when some stored coin has the id |
| `CoinsRepository.CoinsStore.GetMissingCoinIds` | src/SVC_Microservices/SVC_Coins/Repositories/CoinsRepository.cs:61-75 | the requested ids that no stored coin has: a subset of the request, the whole request for an empty store |
| `CoinsRepository.Probe` | src/SVC_Microservices/SVC_Coins/Repositories/CoinsRepository.cs:118-119 | a lookup entity carries the pair's symbol and name and the unsaved key 0 |
| `CoinsRepository.Probes` | src/SVC_Microservices/SVC_Coins/Repositories/CoinsRepository.cs:45 | one lookup entity per requested pair, in request order, each with key 0 and that pair's symbol and name |
| `CoinsRepository.BulkRead` | src/SVC_Microservices/SVC_Coins/Repositories/CoinsRepository.cs:49-54 | stands in for the bulk-read library call keyed by symbol and name: each lookup entity, in place and in order, is filled from the stored row with its symbol and name (the contract restates the body, since it is the call's definition) |
| `CoinsRepository.FillFrom` | src/SVC_Microservices/SVC_Coins/Repositories/CoinsRepository.cs:49-54 | a lookup entity becomes a stored row with the same symbol and name if one exists, and stays as it was otherwise |
| `CoinsRepository.StoredMatch` | src/SVC_Microservices/SVC_Coins/Repositories/CoinsRepository.cs:49-54 | a stored row with the symbol and name is found exactly when one exists, and it is such a row |
| `CoinsRepository.MatchesInOrder` | src/SVC_Microservices/SVC_Coins/Repositories/CoinsRepository.cs:45-58 | the reference answer of a symbol/name query holds only stored rows with a requested pair, at most one per request entry |
| `CoinsRepository.MatchesAppend` | src/SVC_Microservices/SVC_Coins/Repositories/CoinsRepository.cs:45-58 | answering two lists of pairs at once answers the first list and then the second, so the answer follows request order |
| `CoinsRepository.MatchesSingle` | src/SVC_Microservices/SVC_Coins/Repositories/CoinsRepository.cs:45-58 | one requested pair gets exactly its stored row when it is stored and nothing when it is not |
| `CoinsRepository.OneMatchPerStoredPair` | src/SVC_Microservices/SVC_Coins/Repositories/CoinsRepository.cs:45-58 | with one coin stored and a second pair requested that is not stored, the answer is that coin exactly once |
| `CoinsRepository.BulkReadInOrder` | src/SVC_Microservices/SVC_Coins/Repositories/CoinsRepository.cs:45-56 | filling one lookup entity per pair from the store and keeping those that got a non-zero key gives the reference answer |
| `CoinsRepository.FoundAreStored` | src/SVC_Microservices/SVC_Coins/Repositories/CoinsRepository.cs:46-58 | every coin the symbol/name query returns is stored and matches a requested pair |
| `CoinsRepository.StoredAreFound` | src/SVC_Microservices/SVC_Coins/Repositories/CoinsRepository.cs:46-58 | every requested pair that is stored is returned by the symbol/name query |
| `CoinsRepository.CoinsStore.GetCoinsBySymbolNamePairs` | src/SVC_Microservices/SVC_Coins/Repositories/CoinsRepository.cs:42-59 | the answer is the reference answer: one stored coin per requested pair that is stored, in request order; so only stored coins matching a requested (symbol, name), every stored match, and none from an empty store |
| `CoinsRepository.WithFreshIds` | src/SVC_Microservices/SVC_Coins/Repositories/CoinsRepository.cs:85-86 | new entities get consecutive keys from the counter in input order, every other field unchanged |
| `CoinsRepository.AppendAscending` | src/SVC_Microservices/SVC_Coins/Repositories/CoinsRepository.cs:85-86 | rows numbered after every stored key keep the table ascending |
| `CoinsRepository.InsertedCoinFoundById` | src/SVC_Microservices/SVC_Coins/Repositories/CoinsRepository.cs:82-88 | after an insert, looking up an inserted coin's new id gives back exactly that coin |
| `CoinsRepository.CoinsStore.InsertCoins` | src/SVC_Microservices/SVC_Coins/Repositories/CoinsRepository.cs:82-88 | appends exactly the given coins under fresh ids and returns them in input order; existing rows, pairs and exchanges are unchanged; empty input changes nothing |
| `CoinsRepository.UpdateFor` | src/SVC_Microservices/SVC_Coins/Repositories/CoinsRepository.cs:93 | finds an entity of the batch with the key exactly when the batch has one |
| `CoinsRepository.ApplyUpdates` | src/SVC_Microservices/SVC_Coins/Repositories/CoinsRepository.cs:93-94 | keys are unchanged; rows not in the batch are untouched; rows in the batch are replaced by an entity of the batch |
| `CoinsRepository.ApplyUpdatesKeepsKeys` | src/SVC_Microservices/SVC_Coins/Repositories/CoinsRepository.cs:93-94 | an update keeps every stored key, and an ascending table stays ascending |
| `CoinsRepository.UpdatedCoinStored` | src/SVC_Microservices/SVC_Coins/Repositories/CoinsRepository.cs:91-96 | with distinct keys, each entity whose key is stored ends up stored as given |
| `CoinsRepository.NumberNew` | src/SVC_Microservices/SVC_Coins/Repositories/CoinsRepository.cs:93-95 | after saving, entities with a non-zero key come back unchanged, and entities with key 0 come back unchanged except for a key from the counter up |
| `CoinsRepository.WithFreshIdsCons` | src/SVC_Microservices/SVC_Coins/Repositories/CoinsRepository.cs:93-94 | numbering a batch numbers its first entity with the counter and the rest from the next key |
| `CoinsRepository.NumberNewAgrees` | src/SVC_Microservices/SVC_Coins/Repositories/CoinsRepository.cs:93-95 | the entities that come back with new keys are exactly the rows the save appends |
| `CoinsRepository.SaveKeepsKeys` | src/SVC_Microservices/SVC_Coins/Repositories/CoinsRepository.cs:91-96 | saving a batch keeps every stored key and the ascending order, and all keys stay positive and below the advanced counter |
| `CoinsRepository.CoinsStore.CheckUpdateBatch` | src/SVC_Microservices/SVC_Coins/Repositories/CoinsRepository.cs:91-96 | finds nothing wrong exactly when every non-zero key of the batch is stored and appears once; an error names a non-zero key of the batch |
| `CoinsRepository.CoinsStore.UpdateCoins` | src/SVC_Microservices/SVC_Coins/Repositories/CoinsRepository.cs:91-96 | fails, leaving the store unchanged, exactly when a non-zero key is not stored or appears twice; otherwise overwrites exactly the rows with those keys, appends the key-0 entities under fresh keys in batch order, advances the counter by their number, and returns the batch with the assigned keys |
| `CoinsRepository.SweepKeepsReferences` | src/SVC_Microservices/SVC_Coins/Repositories/CoinsRepository.cs:99-106 | after the sweep the keys stay ascending and below the counter, and every coin a trading pair references is still stored |
| `CoinsRepository.CoinsStore.DeleteCoinsNotReferencedByTradingPairs` | src/SVC_Microservices/SVC_Coins/Repositories/CoinsRepository.cs:99-106 | the remaining coins are exactly the coins referenced as main or quote of some trading pair; pairs, exchanges and the counter are unchanged |
| `CoinsRepository.CoinsStore.DeleteAllCoinsWithRelations` | src/SVC_Microservices/SVC_Coins/Repositories/CoinsRepository.cs:109-114 | coins and trading pairs become empty; the exchange rows stay |
| `CoinsRepository.CoinsStore.constructor` | tests/SVC_Microservices/SVC_Coins.Tests.Unit/Repositories/CoinsRepositoryTests.cs:340-363 | an empty store whose first key is 1, with its exchange rows seeded |
| `CoinsValidator.NewQuotePairs` | tests/SVC_Microservices/SVC_Coins.Tests.Unit/Services/Validators/CoinsValidatorTests.cs:91-122 | exactly the (symbol, name) of the inline quote coins given without an id |
| `CoinsValidator.NewCoinPairs` | tests/SVC_Microservices/SVC_Coins.Tests.Unit/Services/Validators/CoinsValidatorTests.cs:57-122 | the pairs sent to the duplicate check are exactly the main coins without an id and the inline quote coins without an id |
| `CoinsValidator.QuoteIds` | tests/SVC_Microservices/SVC_Coins.Tests.Unit/Services/Validators/CoinsValidatorTests.cs:125-151 | exactly the ids given for inline quote coins |
| `CoinsValidator.ReferencedIds` | tests/SVC_Microservices/SVC_Coins.Tests.Unit/Services/Validators/CoinsValidatorTests.cs:413-439 | the id set sent to the missing-id check is exactly the main-coin ids given plus the quote-coin ids given |
| `CoinsValidator.PairExchanges` | tests/SVC_Microservices/SVC_Coins.Tests.Unit/Services/Validators/CoinsValidatorTests.cs:154-179 | exactly the exchanges listed by the given trading pairs |
| `CoinsValidator.ExchangesUsed` | tests/SVC_Microservices/SVC_Coins.Tests.Unit/Services/Validators/CoinsValidatorTests.cs:154-179 | exactly the exchanges listed by any requested trading pair |
| `CoinsValidator.KnownIds` | tests/SVC_Microservices/SVC_Coins.Tests.Unit/Services/Validators/CoinsValidatorTests.cs:154-179 | an exchange value is known exactly when some exchange row has it as id |
| `CoinsValidator.CreationValidIffNoViolation` | tests/SVC_Microservices/SVC_Coins.Tests.Unit/Services/Validators/CoinsValidatorTests.cs:33-54 | a creation batch passes all three checks exactly when no violation of any kind exists |
| `CoinsValidator.ViolationsCombine` | tests/SVC_Microservices/SVC_Coins.Tests.Unit/Services/Validators/CoinsValidatorTests.cs:182-212 | a stored main coin, a missing quote id and an unknown exchange in one batch are all violations at once, and the batch is invalid |
| `CoinsValidator.UpdateIds` | tests/SVC_Microservices/SVC_Coins.Tests.Unit/Services/Validators/CoinsValidatorTests.cs:215-250 | exactly the ids of the update requests |
| `CoinsValidator.DuplicateItems` | tests/SVC_Microservices/SVC_Coins.Tests.Unit/Services/Validators/CoinsValidatorTests.cs:57-122 | one duplicate violation, naming symbol and name, per coin the symbol/name query returned |
| `CoinsValidator.MissingItems` | tests/SVC_Microservices/SVC_Coins.Tests.Unit/Services/Validators/CoinsValidatorTests.cs:125-151 | exactly one missing-id violation per missing id |
| `CoinsValidator.InvalidItems` | tests/SVC_Microservices/SVC_Coins.Tests.Unit/Services/Validators/CoinsValidatorTests.cs:154-179 | exactly one invalid-exchange violation per listed exchange that is not known |
| `CoinsValidator.CollectDuplicates` | tests/SVC_Microservices/SVC_Coins.Tests.Unit/Services/Validators/CoinsValidatorTests.cs:57-122 | the loop builds exactly the duplicate items of the returned coins |
| `CoinsValidator.CollectInvalidExchanges` | tests/SVC_Microservices/SVC_Coins.Tests.Unit/Services/Validators/CoinsValidatorTests.cs:154-179 | the loop builds exactly the invalid-exchange items of the listed exchanges |
| `CoinsValidator.DuplicatesExact` | tests/SVC_Microservices/SVC_Coins.Tests.Unit/Services/Validators/CoinsValidatorTests.cs:303-324 | the duplicates named are exactly the requested pairs that are stored, every one of them |
| `CoinsValidator.CreationItemsExact` | tests/SVC_Microservices/SVC_Coins.Tests.Unit/Services/Validators/CoinsValidatorTests.cs:182-212 | the three item sets together are exactly the creation violations, and empty exactly when the batch is valid |
| `CoinsValidator.CoinsValidatorService.constructor` | tests/SVC_Microservices/SVC_Coins.Tests.Unit/Services/Validators/CoinsValidatorTests.cs:18-29 | the validator works against the given repository |
| `CoinsValidator.CoinsValidatorService.ValidateCoinCreationRequests` | tests/SVC_Microservices/SVC_Coins.Tests.Unit/Services/Validators/CoinsValidatorTests.cs:33-439 | issues the symbol/name query for the new coins, the missing-id query for exactly the main and quote ids given, and the exchange list query, once each; succeeds exactly when there is no duplicate, no missing id and no unknown exchange; otherwise one BadRequest error whose items are exactly all violations (an existing id is never named) |
| `CoinsValidator.CoinsValidatorService.ValidateQuoteCoinCreationRequests` | tests/SVC_Microservices/SVC_Coins.Tests.Unit/Services/Validators/CoinsValidatorTests.cs:253-324 | issues one symbol/name query; succeeds exactly when no requested quote coin is stored; otherwise one BadRequest error naming every stored one |
| `CoinsValidator.CoinsValidatorService.ValidateMarketDataUpdateRequests` | tests/SVC_Microservices/SVC_Coins.Tests.Unit/Services/Validators/CoinsValidatorTests.cs:215-250 | issues one missing-id query for the requested ids; succeeds exactly when every requested id is stored; otherwise one NotFound error naming exactly the missing ids |
| `KlineDataCollector.PairRequest` | tests/SVC_Microservices/SVC_Bridge.Tests.Unit/DataCollectors/KlineDataCollectorTests.cs:75-85 | a pair's request names the main and quote symbols and carries the run's interval, window and limit |
| `KlineDataCollector.TagAll` | tests/SVC_Microservices/SVC_Bridge.Tests.Unit/DataCollectors/KlineDataCollectorTests.cs:103-115 | one record per candlestick, in order, each tagged with the pair id and carrying all of the candlestick's fields unchanged |
| `KlineDataCollector.CollectMainCoin` | tests/SVC_Microservices/SVC_Bridge.Tests.Unit/DataCollectors/KlineDataCollectorTests.cs:75-115 | for one main coin, fetches and registers every quote coin in order; the records are every pair's batch tagged with its pair id |
| `KlineDataCollector.CollectEntireKlineData` | tests/SVC_Microservices/SVC_Bridge.Tests.Unit/DataCollectors/KlineDataCollectorTests.cs:55-150 | asks for all coins and the quote coins first, then fetches and registers every (main, quote) pair; the result is the tagged records of every pair, main coin by main coin; the warning is raised exactly when the result is empty |
| `KlineDataCollector.MainRecordsEmpty` | tests/SVC_Microservices/SVC_Bridge.Tests.Unit/DataCollectors/KlineDataCollectorTests.cs:125-150 | one main coin contributes nothing exactly when all its fetches are empty |
| `KlineDataCollector.CollectedEmptyIffNothingFetched` | tests/SVC_Microservices/SVC_Bridge.Tests.Unit/DataCollectors/KlineDataCollectorTests.cs:125-150 | nothing is collected, so the warning is raised, exactly when every fetch is empty |
| `KlineDataCollector.MainCallsFetchEach` | tests/SVC_Microservices/SVC_Bridge.Tests.Unit/DataCollectors/KlineDataCollectorTests.cs:75-85 | for one main coin, every quote coin is fetched and registered |
| `KlineDataCollector.EveryPairFetched` | tests/SVC_Microservices/SVC_Bridge.Tests.Unit/DataCollectors/KlineDataCollectorTests.cs:75-85 | every (main, quote) pair is fetched and registered, so a non-empty coin list means at least one fetch |
| `KlineDataCollector.MainCallsShape` | tests/SVC_Microservices/SVC_Bridge.Tests.Unit/DataCollectors/KlineDataCollectorTests.cs:55-72 | one main coin makes two calls per quote coin, all fetches or registrations |
| `KlineDataCollector.PairLoopCallsShape` | tests/SVC_Microservices/SVC_Bridge.Tests.Unit/DataCollectors/KlineDataCollectorTests.cs:55-72 | the loop makes two calls per pair and never asks for the coin lists again, so each is asked for exactly once |
| `KlineDataCollector.RecordsComeFromPairs` | tests/SVC_Microservices/SVC_Bridge.Tests.Unit/DataCollectors/KlineDataCollectorTests.cs:103-115 | every collected record carries a candlestick fetched for some pair and the id the registry gave that pair |
| `KlineDataCollector.MainRecordFrom` | tests/SVC_Microservices/SVC_Bridge.Tests.Unit/DataCollectors/KlineDataCollectorTests.cs:103-115 | a record collected for one main coin comes from one of its quote coins' fetches, tagged with that pair's id |
| `KlineDataCollector.SingleQuoteResult` | tests/SVC_Microservices/SVC_Bridge.Tests.Unit/DataCollectors/KlineDataCollectorTests.cs:88-122 | with one quote coin, the same batch from every fetch and pair id 1, the result is that batch tagged with 1, once per main coin |

## Left out

- HTTP transport, status codes and JSON deserialisation. A response is a success flag plus an already deserialised body.
- Transport exceptions, cancellation and `async`/`await`. Everything is sequential.
- Logging. Unsuccessful responses are logged without effect. The bridge's warning is a returned flag.
- `QueryText.IntToString`: formats integers as the invariant culture does, with "-" for negatives. The string interpolation of the limit and the times uses the current culture, whose negative sign may differ.
- `Convert.ToDecimal` parsing. Prices and volume stay decimal text, and JSON null becomes "0".
- `BinanceClient.GetDecimal`: does not reject strings that are not decimals, because decimal parsing is library code.
- `ExchangeModels.ToUnixTimeMilliseconds`: treats times as UTC ticks. The local-time offset `new DateTimeOffset(DateTime)` applies to unspecified times is not modelled.
- Lazy evaluation of `Select` in `GetKlineData`. A malformed row is an error of the whole call rather than of a later enumeration.
- EF Core mechanics:
  - SQL translation, change tracking and split queries;
  - eager loading of a trading pair's exchange and quote-coin entities. A pair carries the ids.
- The coins table's unique (symbol, name) index. The database context that declares it is not part of this model.
- `CoinsRepository.CoinsStore.UpdateCoins`: models only two failure causes of `SaveChanges`, an unknown non-zero key and a non-zero key tracked twice. It does not model concurrency tokens or constraint violations.
- `CoinsRepository.CoinsStore.InsertCoins`: assumes the inserted entities carry the default key 0. Each entity gets a fresh key whatever key it carries, whereas SQL Server rejects an explicit value for the identity column.
- The coin fields that take no part in these operations: category, priority flags and timestamps. Also the message texts of the errors, and the order of the violations, which are kept as a set.
- `ExchangesDataCollector.GetAllListedCoins`, which fans out over all clients. It is outside the modelled core.
- `KlineDataCollector.CollectEntireKlineData`: models the full cross product of main coins and quote coins. Every pair is fetched and registered, also when its fetch is empty or when the main coin is the quote coin. A priority fallback over the quote coins, which `GetQuoteCoinsPrioritized` and "applicable quote coin" suggest, is not modelled; the tests use a fetch that always returns data, so they cannot tell the two apart. The order of the fetch and the registration within one pair is also an assumption.
- `ExchangesDataCollector.FirstClientHasData`: states only the result. That the second client is never called follows from the call log of `ExchangesDataCollector.GetKlineData`, whose last called client is the one that returned data.
- Controllers, dependency injection, the integration tests and the kline store's schema.
