/**
 * The Binance exchange client: the request-to-endpoint mapping, the positional
 * candlestick decoding, and the two fail-soft calls. The HTTP transport is a
 * function from endpoint path to an already deserialised response.
 */
module BinanceClient {
  import opened Wrappers
  import opened QueryText
  import opened ExchangeModels

  /** A response: whether the status code is 2xx, and the deserialised body. */
  datatype HttpResponse<T> = HttpResponse(isSuccessStatusCode: bool, content: T)

  /** The kinds of JSON element a kline row may hold. */
  datatype JsonElement = JInteger(n: int) | JString(s: string) | JNull | JOther

  /** What makes a client call throw instead of returning. */
  datatype ClientError =
    | UnsupportedTimeFrame(timeFrame: ExchangeKlineInterval)
    | MalformedKlineRow(index: nat)

  const Int64Min: int := -0x8000_0000_0000_0000
  const Int64Max: int := 0x7FFF_FFFF_FFFF_FFFF

  const KlinesPath: string := "/api/v3/klines"
  const ExchangeInfoEndpoint: string := "/api/v3/exchangeInfo"

  // ---------------------------------------------------------------- intervals

  /** The exchange's own interval token; an undefined enumeration value is an error. */
  function ToBinanceTimeFrame(timeFrame: ExchangeKlineInterval): (r: Result<string, ClientError>)
    ensures r.Failure? <==> timeFrame.Undefined?
    ensures r.Failure? ==> r.error == UnsupportedTimeFrame(timeFrame)
  {
    match timeFrame
    case OneMinute => Success("1m")
    case FiveMinutes => Success("5m")
    case FifteenMinutes => Success("15m")
    case ThirtyMinutes => Success("30m")
    case OneHour => Success("1h")
    case FourHours => Success("4h")
    case OneDay => Success("1d")
    case OneWeek => Success("1w")
    case OneMonth => Success("1M")
    case Undefined(_) => Failure(UnsupportedTimeFrame(timeFrame))
  }

  /** Reads a Binance interval token back; the inverse of `ToBinanceTimeFrame`. */
  function FromBinanceTimeFrame(token: string): Option<ExchangeKlineInterval>
  {
    if token == "1m" then Some(OneMinute)
    else if token == "5m" then Some(FiveMinutes)
    else if token == "15m" then Some(FifteenMinutes)
    else if token == "30m" then Some(ThirtyMinutes)
    else if token == "1h" then Some(OneHour)
    else if token == "4h" then Some(FourHours)
    else if token == "1d" then Some(OneDay)
    else if token == "1w" then Some(OneWeek)
    else if token == "1M" then Some(OneMonth)
    else None
  }

  /** A token is produced for an interval exactly when it reads back as that interval. */
  lemma TimeFrameRoundTrip(timeFrame: ExchangeKlineInterval, token: string)
    ensures ToBinanceTimeFrame(timeFrame) == Success(token) <==> FromBinanceTimeFrame(token) == Some(timeFrame)
  {
  }

  /** Distinct intervals never share a token. */
  lemma TimeFrameInjective(a: ExchangeKlineInterval, b: ExchangeKlineInterval)
    requires ToBinanceTimeFrame(a).Success? && ToBinanceTimeFrame(b).Success?
    requires ToBinanceTimeFrame(a).value == ToBinanceTimeFrame(b).value
    ensures a == b
  {
    TimeFrameRoundTrip(a, ToBinanceTimeFrame(a).value);
    TimeFrameRoundTrip(b, ToBinanceTimeFrame(b).value);
  }

  /** The tokens that read back as an interval are exactly the nine of the Binance API. */
  lemma TimeFrameTokens(token: string)
    ensures FromBinanceTimeFrame(token).Some? <==>
      token in ["1m", "5m", "15m", "30m", "1h", "4h", "1d", "1w", "1M"]
  {
  }

  // ----------------------------------------------------------------- endpoint

  /** `GET /api/v3/klines` with its five query parameters, or the interval error. */
  function ToBinanceKlineEndpoint(request: KlineDataRequestFormatted): (r: Result<string, ClientError>)
    ensures r.Failure? <==> request.interval.Undefined?
    ensures r.Failure? ==> r.error == UnsupportedTimeFrame(request.interval)
  {
    match ToBinanceTimeFrame(request.interval)
    case Failure(e) => Failure(e)
    case Success(timeFrame) =>
      Success(KlinesPath + "?symbol=" + (request.coinMain + request.coinQuote)
        + "&interval=" + timeFrame
        + "&limit=" + IntToString(request.limit)
        + "&startTime=" + IntToString(request.startTimeUnix)
        + "&endTime=" + IntToString(request.endTimeUnix))
  }

  /**
   * The endpoint is the klines path, then a query whose parameters read back, in
   * order, as the concatenated symbol, the interval, the limit and the two times.
   */
  lemma {:induction false} KlineEndpointQuery(request: KlineDataRequestFormatted)
    requires !request.interval.Undefined?
    requires '&' !in request.coinMain + request.coinQuote
    ensures var endpoint := ToBinanceKlineEndpoint(request).value;
      var prefix := KlinesPath + "?";
      var query := ParseQuery(endpoint[|prefix|..]);
      && |prefix| <= |endpoint| && endpoint[..|prefix|] == prefix
      && |query| == 5
      && query[0] == ("symbol", request.coinMain + request.coinQuote)
      && query[1].0 == "interval" && FromBinanceTimeFrame(query[1].1) == Some(request.interval)
      && query[2].0 == "limit" && ParseInt(query[2].1) == Some(request.limit)
      && query[3].0 == "startTime" && ParseInt(query[3].1) == Some(request.startTimeUnix)
      && query[4].0 == "endTime" && ParseInt(query[4].1) == Some(request.endTimeUnix)
  {
    var timeFrame := ToBinanceTimeFrame(request.interval).value;
    KlineEndpointParams(request, timeFrame);
    TimeFrameRoundTrip(request.interval, timeFrame);
    IntToStringRoundTrip(request.limit);
    IntToStringRoundTrip(request.startTimeUnix);
    IntToStringRoundTrip(request.endTimeUnix);
  }

  /** The query part of the endpoint parses back to exactly the five parameters. */
  lemma KlineEndpointParams(request: KlineDataRequestFormatted, timeFrame: string)
    requires ToBinanceTimeFrame(request.interval) == Success(timeFrame)
    requires '&' !in request.coinMain + request.coinQuote
    ensures var endpoint := ToBinanceKlineEndpoint(request).value;
      var prefix := KlinesPath + "?";
      && |prefix| <= |endpoint| && endpoint[..|prefix|] == prefix
      && ParseQuery(endpoint[|prefix|..]) == KlineQueryParams(request.coinMain + request.coinQuote, timeFrame,
           IntToString(request.limit), IntToString(request.startTimeUnix), IntToString(request.endTimeUnix))
  {
    var symbol := request.coinMain + request.coinQuote;
    var limit, start, end :=
      IntToString(request.limit), IntToString(request.startTimeUnix), IntToString(request.endTimeUnix);
    var params := KlineQueryParams(symbol, timeFrame, limit, start, end);
    assert PlainParams(params) by {
      assert '&' !in timeFrame && '&' !in limit && '&' !in start && '&' !in end;
    }
    KlineEndpointLayout(request, timeFrame);
    var prefix := KlinesPath + "?";
    assert ToBinanceKlineEndpoint(request).value[|prefix|..] == FormatQuery(params);
    QueryRoundTrip(params);
  }

  function KlineQueryParams(symbol: string, timeFrame: string, limit: string, start: string, end: string)
    : seq<(string, string)>
  {
    [("symbol", symbol), ("interval", timeFrame), ("limit", limit), ("startTime", start), ("endTime", end)]
  }

  /** One more `&key=value` on the query is the same text appended to the endpoint. */
  lemma AppendParam(prefix: string, query: string, key: string, value: string)
    ensures prefix + (query + "&" + Field(key, value)) == prefix + query + ("&" + key + "=") + value
  {
  }

  /** The interpolated endpoint is the klines path, `?`, and the formatted parameters. */
  lemma KlineEndpointLayout(request: KlineDataRequestFormatted, timeFrame: string)
    requires ToBinanceTimeFrame(request.interval) == Success(timeFrame)
    ensures ToBinanceKlineEndpoint(request).value
         == KlinesPath + "?" + FormatQuery(KlineQueryParams(request.coinMain + request.coinQuote, timeFrame,
              IntToString(request.limit), IntToString(request.startTimeUnix), IntToString(request.endTimeUnix)))
  {
    var symbol := request.coinMain + request.coinQuote;
    var limit, start, end :=
      IntToString(request.limit), IntToString(request.startTimeUnix), IntToString(request.endTimeUnix);
    var ps := KlineQueryParams(symbol, timeFrame, limit, start, end);
    var prefix := KlinesPath + "?";
    var q1 := FormatQuery(ps[..1]);
    var q2 := FormatQuery(ps[..2]);
    var q3 := FormatQuery(ps[..3]);
    var q4 := FormatQuery(ps[..4]);
    assert ps[..5] == ps;
    assert ps[..4][..3] == ps[..3] && ps[..3][..2] == ps[..2] && ps[..2][..1] == ps[..1];
    var e1 := KlinesPath + "?symbol=" + symbol;
    assert prefix + q1 == e1 by {
      assert q1 == "symbol" + "=" + symbol;
      assert "?symbol=" == "?" + "symbol" + "=";
    }
    var e2 := e1 + "&interval=" + timeFrame;
    assert prefix + q2 == e2 by {
      AppendParam(prefix, q1, "interval", timeFrame);
      assert "&interval=" == "&" + "interval" + "=";
    }
    var e3 := e2 + "&limit=" + limit;
    assert prefix + q3 == e3 by {
      AppendParam(prefix, q2, "limit", limit);
      assert "&limit=" == "&" + "limit" + "=";
    }
    var e4 := e3 + "&startTime=" + start;
    assert prefix + q4 == e4 by {
      AppendParam(prefix, q3, "startTime", start);
      assert "&startTime=" == "&" + "startTime" + "=";
    }
    assert prefix + FormatQuery(ps) == e4 + "&endTime=" + end by {
      AppendParam(prefix, q4, "endTime", end);
      assert "&endTime=" == "&" + "endTime" + "=";
    }
  }

  // ------------------------------------------------------------ kline decoding

  /** `JsonElement.GetInt64()`: an integer that fits in 64 bits, otherwise it throws. */
  function GetInt64(e: JsonElement): (r: Option<int>)
    ensures r.Some? ==> Int64Min <= r.value <= Int64Max
  {
    if e.JInteger? && Int64Min <= e.n <= Int64Max then Some(e.n) else None
  }

  /**
   * `Convert.ToDecimal(e.GetString(), invariant)`: a JSON string gives its decimal
   * text, JSON null gives zero, any other kind throws.
   */
  function GetDecimal(e: JsonElement): Option<Decimal>
  {
    match e
    case JString(s) => Some(s)
    case JNull => Some("0")
    case _ => None
  }

  /** One positional kline row: fields 0..6, extra trailing fields ignored. */
  function ToKlineData(data: seq<JsonElement>): Option<KlineData>
  {
    if |data| < 7 then None
    else
      match (GetInt64(data[0]), GetDecimal(data[1]), GetDecimal(data[2]), GetDecimal(data[3]),
             GetDecimal(data[4]), GetDecimal(data[5]), GetInt64(data[6]))
      case (Some(openTime), Some(open), Some(high), Some(low), Some(close), Some(volume), Some(closeTime)) =>
        Some(KlineData(openTime, open, high, low, close, volume, closeTime))
      case _ => None
  }

  /** The row layout Binance sends for a candlestick: times as numbers, decimals as strings. */
  function KlineRow(k: KlineData): (row: seq<JsonElement>)
    ensures |row| == 7
  {
    [JInteger(k.openTime), JString(k.openPrice), JString(k.highPrice), JString(k.lowPrice),
     JString(k.closePrice), JString(k.volume), JInteger(k.closeTime)]
  }

  predicate FitsInt64(n: int) { Int64Min <= n <= Int64Max }

  /** Decoding a row in Binance's layout gives back its candlestick, whatever follows field 6. */
  lemma KlineRowRoundTrip(k: KlineData, extra: seq<JsonElement>)
    requires FitsInt64(k.openTime) && FitsInt64(k.closeTime)
    ensures ToKlineData(KlineRow(k) + extra) == Some(k)
  {
    var row := KlineRow(k) + extra;
    assert row[0] == JInteger(k.openTime) && row[6] == JInteger(k.closeTime);
    assert row[1] == JString(k.openPrice) && row[2] == JString(k.highPrice);
    assert row[3] == JString(k.lowPrice) && row[4] == JString(k.closePrice) && row[5] == JString(k.volume);
  }

  /** A row shorter than seven fields always fails to decode. */
  lemma ShortRowRejected(data: seq<JsonElement>)
    requires |data| < 7
    ensures ToKlineData(data) == None
  {
  }

  /**
   * `rawData.Select(ToKlineData)`: one candlestick per row, in row order, or the
   * failure of the first row that does not decode.
   */
  function ToKlineRows(rows: seq<seq<JsonElement>>): (r: Result<seq<KlineData>, ClientError>)
    ensures r.Success? ==>
      |r.value| == |rows| && forall i :: 0 <= i < |rows| ==> ToKlineData(rows[i]) == Some(r.value[i])
    ensures r.Failure? ==>
      r.error.MalformedKlineRow? && r.error.index < |rows| && ToKlineData(rows[r.error.index]).None?
      && forall i :: 0 <= i < r.error.index ==> ToKlineData(rows[i]).Some?
    ensures r.Failure? <==> exists i :: 0 <= i < |rows| && ToKlineData(rows[i]).None?
  {
    if |rows| == 0 then Success([])
    else
      match ToKlineData(rows[0])
      case None => Failure(MalformedKlineRow(0))
      case Some(k) =>
        match ToKlineRows(rows[1..])
        case Failure(e) =>
          assert forall i :: 1 <= i <= e.index ==> rows[i] == rows[1..][i - 1];
          Failure(MalformedKlineRow(e.index + 1))
        case Success(ks) =>
          assert forall i :: 1 <= i < |rows| ==> rows[i] == rows[1..][i - 1];
          Success([k] + ks)
  }

  /**
   * Fetches candlesticks. An undefined interval throws before any request is sent;
   * a non-2xx status gives no candlesticks; otherwise every row of the body is decoded.
   */
  method GetKlineData(http: string -> HttpResponse<seq<seq<JsonElement>>>, request: KlineDataRequestFormatted)
    returns (r: Result<seq<KlineData>, ClientError>)
    ensures request.interval.Undefined? ==> r == Failure(UnsupportedTimeFrame(request.interval))
    ensures !request.interval.Undefined? ==>
      var response := http(ToBinanceKlineEndpoint(request).value);
      && (!response.isSuccessStatusCode ==> r == Success([]))
      && (response.isSuccessStatusCode ==> r == ToKlineRows(response.content))
  {
    var endpoint := ToBinanceKlineEndpoint(request);
    if endpoint.Failure? {
      return Failure(endpoint.error);
    }
    var httpResponse := http(endpoint.value);
    if !httpResponse.isSuccessStatusCode {
      return Success([]);
    }
    r := ToKlineRows(httpResponse.content);
  }

  /** A well-formed successful body yields its candlesticks unchanged and in order. */
  lemma {:induction false} KlineRowsRoundTrip(ks: seq<KlineData>)
    requires forall i :: 0 <= i < |ks| ==> FitsInt64(ks[i].openTime) && FitsInt64(ks[i].closeTime)
    ensures ToKlineRows(seq(|ks|, i requires 0 <= i < |ks| => KlineRow(ks[i]))) == Success(ks)
  {
    var rows := seq(|ks|, i requires 0 <= i < |ks| => KlineRow(ks[i]));
    forall i | 0 <= i < |ks| ensures ToKlineData(rows[i]) == Some(ks[i]) {
      KlineRowRoundTrip(ks[i], []);
      assert KlineRow(ks[i]) + [] == KlineRow(ks[i]);
    }
    var r := ToKlineRows(rows);
    assert r.Success?;
    assert r.value == ks;
  }

  // -------------------------------------------------------------- listed coins

  /** The per-exchange accumulator the caller passes through every client. */
  class ListedCoins {
    var binanceCoins: seq<string>
    var bybitCoins: seq<string>
    var mexcCoins: seq<string>

    constructor ()
      ensures binanceCoins == [] && bybitCoins == [] && mexcCoins == []
    {
      binanceCoins, bybitCoins, mexcCoins := [], [], [];
    }
  }

  /** A record of the exchange-info body; equality is equality of the base asset. */
  datatype BinanceSymbol = BinanceSymbol(baseAsset: string)

  predicate NoDuplicates<T(==)>(s: seq<T>)
  {
    forall i, j :: 0 <= i < j < |s| ==> s[i] != s[j]
  }

  /**
   * The body's `symbols` array read into a `HashSet`: the first occurrence of every
   * value, in order of first appearance.
   */
  function Dedup<T(==, !new)>(s: seq<T>): (r: seq<T>)
    ensures forall x :: x in r <==> x in s
    ensures NoDuplicates(r)
    ensures |r| <= |s|
  {
    if |s| == 0 then []
    else
      var d := Dedup(s[..|s| - 1]);
      assert forall x :: x in s <==> x in s[..|s| - 1] || x == s[|s| - 1];
      if s[|s| - 1] in d then d else d + [s[|s| - 1]]
  }

  function BaseAssets(symbols: seq<BinanceSymbol>): (assets: seq<string>)
    ensures |assets| == |symbols|
    ensures forall i :: 0 <= i < |symbols| ==> assets[i] == symbols[i].baseAsset
  {
    seq(|symbols|, i requires 0 <= i < |symbols| => symbols[i].baseAsset)
  }

  /** The listed Binance coins: every base asset of the body, each exactly once. */
  lemma ListedBaseAssetsDistinct(symbols: seq<BinanceSymbol>)
    ensures NoDuplicates(BaseAssets(Dedup(symbols)))
    ensures forall a :: a in BaseAssets(Dedup(symbols)) <==> BinanceSymbol(a) in symbols
  {
    var d := Dedup(symbols);
    var assets := BaseAssets(d);
    forall i, j | 0 <= i < j < |assets| ensures assets[i] != assets[j] {
      assert d[i] != d[j];
    }
    forall a ensures a in assets <==> BinanceSymbol(a) in symbols {
      if a in assets {
        var i :| 0 <= i < |assets| && assets[i] == a;
        assert d[i] == BinanceSymbol(a);
      }
      if BinanceSymbol(a) in symbols {
        var i :| 0 <= i < |d| && d[i] == BinanceSymbol(a);
        assert assets[i] == a;
      }
    }
  }

  /**
   * Stores Binance's listed base assets in the accumulator's Binance slot. A non-2xx
   * status leaves the accumulator as it was; the other exchanges' slots never change.
   */
  method GetAllListedCoins(http: string -> HttpResponse<seq<BinanceSymbol>>, listedCoins: ListedCoins)
    returns (r: ListedCoins)
    modifies listedCoins
    ensures r == listedCoins
    ensures listedCoins.bybitCoins == old(listedCoins.bybitCoins)
    ensures listedCoins.mexcCoins == old(listedCoins.mexcCoins)
    ensures !http(ExchangeInfoEndpoint).isSuccessStatusCode ==> unchanged(listedCoins)
    ensures http(ExchangeInfoEndpoint).isSuccessStatusCode ==>
      listedCoins.binanceCoins == BaseAssets(Dedup(http(ExchangeInfoEndpoint).content))
  {
    var httpResponse := http(ExchangeInfoEndpoint);
    if !httpResponse.isSuccessStatusCode {
      return listedCoins;
    }
    listedCoins.binanceCoins := BaseAssets(Dedup(httpResponse.content));
    return listedCoins;
  }
}
