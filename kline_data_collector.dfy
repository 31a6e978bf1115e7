/**
 * The bridge's kline collection: for every main coin and every quote coin it
 * fetches candlesticks from the exchanges service, registers the trading pair
 * with the kline store and tags each record with the pair's id.
 */
module KlineDataCollector {
  import opened ExchangeModels

  /** A coin as the coins service lists it; only id and symbol take part. */
  datatype Coin = Coin(id: int, symbol: string)

  /** The request settings every fetch of one collection run shares. */
  datatype KlineSettings = KlineSettings(interval: ExchangeKlineInterval, startTime: Ticks, endTime: Ticks, limit: int)

  /** A candlestick tagged with the id of its trading pair, ready for the kline store. */
  datatype KlineDataNew = KlineDataNew(
    idTradePair: int,
    openTime: int,
    openPrice: Decimal,
    highPrice: Decimal,
    lowPrice: Decimal,
    closePrice: Decimal,
    volume: Decimal,
    closeTime: int)

  /** The calls the collector makes to the coins and exchanges clients and the distributor. */
  datatype CollectorCall =
    | GetAllCoins
    | GetQuoteCoinsPrioritized
    | GetKlineData(request: KlineDataRequest)
    | InsertTradingPair(idCoinMain: int, idCoinQuote: int)

  /** The exchanges service's kline endpoint. */
  type KlineSource = KlineDataRequest -> seq<KlineData>

  /** The distributor's trading-pair registration: main and quote id to pair id. */
  type PairRegistry = (int, int) -> int

  function PairRequest(main: Coin, quote: Coin, settings: KlineSettings): (r: KlineDataRequest)
    ensures r.coinMain == main.symbol && r.coinQuote == quote.symbol
    ensures r.interval == settings.interval && r.limit == settings.limit
    ensures r.startTime == settings.startTime && r.endTime == settings.endTime
  {
    KlineDataRequest(main.symbol, quote.symbol, settings.interval, settings.startTime, settings.endTime, settings.limit)
  }

  function Tagged(idTradePair: int, k: KlineData): KlineDataNew
  {
    KlineDataNew(idTradePair, k.openTime, k.openPrice, k.highPrice, k.lowPrice, k.closePrice, k.volume, k.closeTime)
  }

  /** The candlestick a tagged record carries. */
  function Untagged(record: KlineDataNew): KlineData
  {
    KlineData(record.openTime, record.openPrice, record.highPrice, record.lowPrice, record.closePrice, record.volume, record.closeTime)
  }

  /** Every record of the batch tagged with the pair id, in fetch order. */
  function TagAll(idTradePair: int, data: seq<KlineData>): (r: seq<KlineDataNew>)
    ensures |r| == |data|
    ensures forall i :: 0 <= i < |r| ==> r[i].idTradePair == idTradePair && Untagged(r[i]) == data[i]
  {
    seq(|data|, i requires 0 <= i < |data| => Tagged(idTradePair, data[i]))
  }


  /** What one (main, quote) pair contributes. */
  function PairRecords(main: Coin, quote: Coin, settings: KlineSettings, source: KlineSource, registry: PairRegistry): seq<KlineDataNew>
  {
    TagAll(registry(main.id, quote.id), source(PairRequest(main, quote, settings)))
  }

  /** The calls made for one (main, quote) pair. */
  function PairCalls(main: Coin, quote: Coin, settings: KlineSettings): seq<CollectorCall>
  {
    [GetKlineData(PairRequest(main, quote, settings)), InsertTradingPair(main.id, quote.id)]
  }

  /** The records collected for one main coin over the given quote coins, in quote order. */
  function MainRecords(main: Coin, quotes: seq<Coin>, settings: KlineSettings, source: KlineSource, registry: PairRegistry): seq<KlineDataNew>
  {
    if |quotes| == 0 then []
    else MainRecords(main, quotes[..|quotes| - 1], settings, source, registry)
         + PairRecords(main, quotes[|quotes| - 1], settings, source, registry)
  }

  function MainCalls(main: Coin, quotes: seq<Coin>, settings: KlineSettings): seq<CollectorCall>
  {
    if |quotes| == 0 then []
    else MainCalls(main, quotes[..|quotes| - 1], settings) + PairCalls(main, quotes[|quotes| - 1], settings)
  }

  /** The records collected over main coins x quote coins, main coin by main coin. */
  function Collected(mains: seq<Coin>, quotes: seq<Coin>, settings: KlineSettings, source: KlineSource, registry: PairRegistry): seq<KlineDataNew>
  {
    if |mains| == 0 then []
    else Collected(mains[..|mains| - 1], quotes, settings, source, registry)
         + MainRecords(mains[|mains| - 1], quotes, settings, source, registry)
  }

  function PairLoopCalls(mains: seq<Coin>, quotes: seq<Coin>, settings: KlineSettings): seq<CollectorCall>
  {
    if |mains| == 0 then []
    else PairLoopCalls(mains[..|mains| - 1], quotes, settings) + MainCalls(mains[|mains| - 1], quotes, settings)
  }

  /** The inner loop: one main coin against every quote coin, in quote order. */
  method CollectMainCoin(main: Coin, quoteCoins: seq<Coin>, settings: KlineSettings,
                         source: KlineSource, registry: PairRegistry)
    returns (records: seq<KlineDataNew>, calls: seq<CollectorCall>)
    ensures records == MainRecords(main, quoteCoins, settings, source, registry)
    ensures calls == MainCalls(main, quoteCoins, settings)
  {
    records, calls := [], [];
    for j := 0 to |quoteCoins|
      invariant records == MainRecords(main, quoteCoins[..j], settings, source, registry)
      invariant calls == MainCalls(main, quoteCoins[..j], settings)
    {
      var quote := quoteCoins[j];
      assert quoteCoins[..j + 1][..j] == quoteCoins[..j];
      var request := PairRequest(main, quote, settings);
      var klines := source(request);
      calls := calls + [GetKlineData(request)];
      var idTradePair := registry(main.id, quote.id);
      calls := calls + [InsertTradingPair(main.id, quote.id)];
      records := records + TagAll(idTradePair, klines);
    }
    assert quoteCoins[..|quoteCoins|] == quoteCoins;
  }

  /**
   * Collects the klines of every (main, quote) pair. Each pair is fetched and
   * registered once; the warning is raised exactly when nothing was collected.
   */
  method CollectEntireKlineData(allCoins: seq<Coin>, quoteCoins: seq<Coin>, settings: KlineSettings,
                                source: KlineSource, registry: PairRegistry)
    returns (result: seq<KlineDataNew>, warned: bool, calls: seq<CollectorCall>)
    ensures result == Collected(allCoins, quoteCoins, settings, source, registry)
    ensures calls == [GetAllCoins, GetQuoteCoinsPrioritized] + PairLoopCalls(allCoins, quoteCoins, settings)
    ensures warned <==> result == []
  {
    calls := [GetAllCoins, GetQuoteCoinsPrioritized];
    result := [];
    for i := 0 to |allCoins|
      invariant result == Collected(allCoins[..i], quoteCoins, settings, source, registry)
      invariant calls == [GetAllCoins, GetQuoteCoinsPrioritized] + PairLoopCalls(allCoins[..i], quoteCoins, settings)
    {
      assert allCoins[..i + 1][..i] == allCoins[..i];
      var records, mainCalls := CollectMainCoin(allCoins[i], quoteCoins, settings, source, registry);
      result := result + records;
      calls := calls + mainCalls;
    }
    assert allCoins[..|allCoins|] == allCoins;
    warned := |result| == 0;
  }

  // ---- Properties ----

  predicate NothingFetched(mains: seq<Coin>, quotes: seq<Coin>, settings: KlineSettings, source: KlineSource)
  {
    forall i, j :: 0 <= i < |mains| && 0 <= j < |quotes| ==> source(PairRequest(mains[i], quotes[j], settings)) == []
  }

  lemma {:induction false} MainRecordsEmpty(main: Coin, quotes: seq<Coin>, settings: KlineSettings, source: KlineSource, registry: PairRegistry)
    ensures MainRecords(main, quotes, settings, source, registry) == [] <==>
      forall j :: 0 <= j < |quotes| ==> source(PairRequest(main, quotes[j], settings)) == []
  {
    if |quotes| > 0 {
      var init := quotes[..|quotes| - 1];
      MainRecordsEmpty(main, init, settings, source, registry);
      assert forall j :: 0 <= j < |init| ==> init[j] == quotes[j];
    }
  }

  /** Nothing is collected exactly when every fetch came back empty. */
  lemma {:induction false} CollectedEmptyIffNothingFetched(mains: seq<Coin>, quotes: seq<Coin>, settings: KlineSettings,
                                                          source: KlineSource, registry: PairRegistry)
    ensures Collected(mains, quotes, settings, source, registry) == [] <==> NothingFetched(mains, quotes, settings, source)
  {
    if |mains| > 0 {
      var init := mains[..|mains| - 1];
      var last := mains[|mains| - 1];
      CollectedEmptyIffNothingFetched(init, quotes, settings, source, registry);
      MainRecordsEmpty(last, quotes, settings, source, registry);
      assert forall i :: 0 <= i < |init| ==> init[i] == mains[i];
      if NothingFetched(mains, quotes, settings, source) {
        assert NothingFetched(init, quotes, settings, source);
      }
    }
  }

  lemma {:induction false} MainCallsFetchEach(main: Coin, quotes: seq<Coin>, settings: KlineSettings, j: nat)
    requires j < |quotes|
    ensures GetKlineData(PairRequest(main, quotes[j], settings)) in MainCalls(main, quotes, settings)
    ensures InsertTradingPair(main.id, quotes[j].id) in MainCalls(main, quotes, settings)
  {
    if j < |quotes| - 1 {
      var init := quotes[..|quotes| - 1];
      assert init[j] == quotes[j];
      MainCallsFetchEach(main, init, settings, j);
    }
  }

  /** Every (main, quote) pair is fetched and registered. */
  lemma {:induction false} EveryPairFetched(mains: seq<Coin>, quotes: seq<Coin>, settings: KlineSettings, i: nat, j: nat)
    requires i < |mains| && j < |quotes|
    ensures GetKlineData(PairRequest(mains[i], quotes[j], settings)) in PairLoopCalls(mains, quotes, settings)
    ensures InsertTradingPair(mains[i].id, quotes[j].id) in PairLoopCalls(mains, quotes, settings)
  {
    if i == |mains| - 1 {
      MainCallsFetchEach(mains[i], quotes, settings, j);
    } else {
      var init := mains[..|mains| - 1];
      assert init[i] == mains[i];
      EveryPairFetched(init, quotes, settings, i, j);
    }
  }

  lemma {:induction false} MainCallsShape(main: Coin, quotes: seq<Coin>, settings: KlineSettings)
    ensures |MainCalls(main, quotes, settings)| == 2 * |quotes|
    ensures forall c :: c in MainCalls(main, quotes, settings) ==> c.GetKlineData? || c.InsertTradingPair?
  {
    if |quotes| > 0 {
      MainCallsShape(main, quotes[..|quotes| - 1], settings);
    }
  }

  /** Two calls per pair, and the coin lists are never asked for again. */
  lemma {:induction false} PairLoopCallsShape(mains: seq<Coin>, quotes: seq<Coin>, settings: KlineSettings)
    ensures |PairLoopCalls(mains, quotes, settings)| == 2 * |mains| * |quotes|
    ensures GetAllCoins !in PairLoopCalls(mains, quotes, settings)
    ensures GetQuoteCoinsPrioritized !in PairLoopCalls(mains, quotes, settings)
  {
    if |mains| > 0 {
      PairLoopCallsShape(mains[..|mains| - 1], quotes, settings);
      MainCallsShape(mains[|mains| - 1], quotes, settings);
      assert 2 * |mains| * |quotes| == 2 * (|mains| - 1) * |quotes| + 2 * |quotes|;
    }
  }

  /** Each tagged record comes from a fetch of its pair and carries the id the registry gave it. */
  lemma {:induction false} RecordsComeFromPairs(mains: seq<Coin>, quotes: seq<Coin>, settings: KlineSettings,
                                               source: KlineSource, registry: PairRegistry, r: KlineDataNew)
    requires r in Collected(mains, quotes, settings, source, registry)
    ensures exists i, j :: (0 <= i < |mains| && 0 <= j < |quotes| && r.idTradePair == registry(mains[i].id, quotes[j].id)
                            && Untagged(r) in source(PairRequest(mains[i], quotes[j], settings)))
  {
    var init := mains[..|mains| - 1];
    var last := mains[|mains| - 1];
    if r in Collected(init, quotes, settings, source, registry) {
      RecordsComeFromPairs(init, quotes, settings, source, registry, r);
      var i, j :| 0 <= i < |init| && 0 <= j < |quotes|
        && r.idTradePair == registry(init[i].id, quotes[j].id)
        && Untagged(r) in source(PairRequest(init[i], quotes[j], settings));
      assert init[i] == mains[i];
    } else {
      var j := MainRecordFrom(last, quotes, settings, source, registry, r);
      assert mains[|mains| - 1] == last;
    }
  }

  lemma {:induction false} MainRecordFrom(main: Coin, quotes: seq<Coin>, settings: KlineSettings,
                                         source: KlineSource, registry: PairRegistry, r: KlineDataNew) returns (j: nat)
    requires r in MainRecords(main, quotes, settings, source, registry)
    ensures j < |quotes| && r.idTradePair == registry(main.id, quotes[j].id)
    ensures Untagged(r) in source(PairRequest(main, quotes[j], settings))
  {
    var init := quotes[..|quotes| - 1];
    if r in MainRecords(main, init, settings, source, registry) {
      j := MainRecordFrom(main, init, settings, source, registry, r);
      assert init[j] == quotes[j];
    } else {
      j := |quotes| - 1;
      var tagged := PairRecords(main, quotes[j], settings, source, registry);
      var k :| 0 <= k < |tagged| && tagged[k] == r;
    }
  }

  /** `count` copies of `s`, one after the other. */
  function Repeat<T>(s: seq<T>, count: nat): seq<T>
  {
    if count == 0 then [] else Repeat(s, count - 1) + s
  }

  /**
   * With a single quote coin, a source that returns the same batch for every
   * request and a registry that always answers the same pair id, the result is
   * that batch, tagged, once per main coin.
   */
  lemma {:induction false} SingleQuoteResult(mains: seq<Coin>, quote: Coin, settings: KlineSettings,
                                            source: KlineSource, registry: PairRegistry, data: seq<KlineData>, id: int)
    requires forall i :: 0 <= i < |mains| ==> source(PairRequest(mains[i], quote, settings)) == data
    requires forall i :: 0 <= i < |mains| ==> registry(mains[i].id, quote.id) == id
    ensures Collected(mains, [quote], settings, source, registry) == Repeat(TagAll(id, data), |mains|)
  {
    if |mains| > 0 {
      var init := mains[..|mains| - 1];
      assert forall i :: 0 <= i < |init| ==> init[i] == mains[i];
      var last := mains[|mains| - 1];
      SingleQuoteResult(init, quote, settings, source, registry, data, id);
      assert [quote][..0] == [];
      assert MainRecords(last, [quote], settings, source, registry) == PairRecords(last, quote, settings, source, registry);
      assert PairRecords(last, quote, settings, source, registry) == TagAll(id, data);
    }
  }
}
