/**
 * Values exchanged with the exchange clients: the kline interval enumeration, the
 * kline requests before and after time conversion, and the common candlestick record.
 */
module ExchangeModels {

  /**
   * The interval enumeration. `Undefined(raw)` stands for any other integer cast to
   * the enumeration type, which the C# type system lets through.
   */
  datatype ExchangeKlineInterval =
    | OneMinute | FiveMinutes | FifteenMinutes | ThirtyMinutes
    | OneHour | FourHours | OneDay | OneWeek | OneMonth
    | Undefined(raw: int)

  /** Exact decimal values are carried as their culture-invariant text. */
  type Decimal = string

  /** A point in time as UTC `DateTime` ticks: 100 ns units since 0001-01-01T00:00Z. */
  type Ticks = nat

  const TicksPerMillisecond: nat := 10_000
  /** Milliseconds from 0001-01-01T00:00Z to the Unix epoch 1970-01-01T00:00Z. */
  const UnixEpochMilliseconds: nat := 62_135_596_800_000

  /** `new DateTimeOffset(t).ToUnixTimeMilliseconds()` for a UTC time `t`. */
  function ToUnixTimeMilliseconds(t: Ticks): int
  {
    t / TicksPerMillisecond - UnixEpochMilliseconds
  }

  /** Kline request as the callers of the exchanges service send it. */
  datatype KlineDataRequest = KlineDataRequest(
    coinMain: string,
    coinQuote: string,
    interval: ExchangeKlineInterval,
    startTime: Ticks,
    endTime: Ticks,
    limit: int)

  /** Kline request handed to each exchange client, times in Unix milliseconds. */
  datatype KlineDataRequestFormatted = KlineDataRequestFormatted(
    coinMain: string,
    coinQuote: string,
    interval: ExchangeKlineInterval,
    startTimeUnix: int,
    endTimeUnix: int,
    limit: int)

  /** The common candlestick record every exchange client normalises to. */
  datatype KlineData = KlineData(
    openTime: int,
    openPrice: Decimal,
    highPrice: Decimal,
    lowPrice: Decimal,
    closePrice: Decimal,
    volume: Decimal,
    closeTime: int)

  /** The Unix epoch itself converts to zero. */
  lemma UnixEpochIsZero()
    ensures ToUnixTimeMilliseconds(UnixEpochMilliseconds * TicksPerMillisecond) == 0
  {
  }

  /** One millisecond more of ticks is one more Unix millisecond. */
  lemma UnixTimeShift(t: Ticks, ms: nat)
    ensures ToUnixTimeMilliseconds(t + ms * TicksPerMillisecond) == ToUnixTimeMilliseconds(t) + ms
  {
    var q, m := t / TicksPerMillisecond, t % TicksPerMillisecond;
    assert t + ms * TicksPerMillisecond == (q + ms) * TicksPerMillisecond + m;
  }

  /** Ticks below a whole millisecond are truncated away. */
  lemma UnixTimeTruncates(t: Ticks)
    ensures ToUnixTimeMilliseconds(t) == ToUnixTimeMilliseconds(t - t % TicksPerMillisecond)
  {
    var q, m := t / TicksPerMillisecond, t % TicksPerMillisecond;
    assert t - m == q * TicksPerMillisecond + 0;
  }

  /** The conversion never reverses the order of two times. */
  lemma UnixTimeMonotonic(a: Ticks, b: Ticks)
    requires a <= b
    ensures ToUnixTimeMilliseconds(a) <= ToUnixTimeMilliseconds(b)
  {
  }
}
