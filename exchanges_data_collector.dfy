/**
 * The multi-exchange kline collector: the request is formatted once and offered to
 * the exchange clients in their configured order until one of them returns data.
 */
module ExchangesDataCollector {
  import opened ExchangeModels

  /** An exchange client's kline call, as seen by the collector. */
  type KlineClient = KlineDataRequestFormatted -> seq<KlineData>

  /** One recorded call: which client, with which request. */
  datatype ClientCall = ClientCall(client: nat, request: KlineDataRequestFormatted)

  /** Times become Unix milliseconds; every other field is passed on as it is. */
  function ToFormattedRequest(request: KlineDataRequest): (r: KlineDataRequestFormatted)
    ensures r.coinMain == request.coinMain && r.coinQuote == request.coinQuote
    ensures r.interval == request.interval && r.limit == request.limit
    ensures r.startTimeUnix == ToUnixTimeMilliseconds(request.startTime)
    ensures r.endTimeUnix == ToUnixTimeMilliseconds(request.endTime)
  {
    KlineDataRequestFormatted(
      request.coinMain, request.coinQuote, request.interval,
      ToUnixTimeMilliseconds(request.startTime), ToUnixTimeMilliseconds(request.endTime),
      request.limit)
  }

  /** A start time not after the end time stays so after formatting. */
  lemma FormattedWindowOrdered(request: KlineDataRequest)
    requires request.startTime <= request.endTime
    ensures ToFormattedRequest(request).startTimeUnix <= ToFormattedRequest(request).endTimeUnix
  {
    UnixTimeMonotonic(request.startTime, request.endTime);
  }

  /** Reference definition of the fallback: the first client result that is not empty. */
  function FirstNonEmpty(clients: seq<KlineClient>, request: KlineDataRequestFormatted): seq<KlineData>
  {
    if |clients| == 0 then []
    else if clients[0](request) != [] then clients[0](request)
    else FirstNonEmpty(clients[1..], request)
  }

  /** The calls `clients[0..n)` with one shared request. */
  function CallsUpTo(n: nat, request: KlineDataRequestFormatted): (calls: seq<ClientCall>)
    ensures |calls| == n
    ensures forall k :: 0 <= k < n ==> calls[k] == ClientCall(k, request)
  {
    seq(n, k requires 0 <= k < n => ClientCall(k, request))
  }

  /** The reference result is empty exactly when every client returns nothing. */
  lemma {:induction false} FirstNonEmptyEmpty(clients: seq<KlineClient>, request: KlineDataRequestFormatted)
    ensures FirstNonEmpty(clients, request) == [] <==> forall k :: 0 <= k < |clients| ==> clients[k](request) == []
  {
    if |clients| > 0 {
      FirstNonEmptyEmpty(clients[1..], request);
      assert forall k :: 1 <= k < |clients| ==> clients[k] == clients[1..][k - 1];
    }
  }

  /** If clients before `i` return nothing and client `i` returns data, that data is the result. */
  lemma {:induction false} FirstNonEmptyAt(clients: seq<KlineClient>, request: KlineDataRequestFormatted, i: nat)
    requires i < |clients| && clients[i](request) != []
    requires forall k :: 0 <= k < i ==> clients[k](request) == []
    ensures FirstNonEmpty(clients, request) == clients[i](request)
  {
    if i > 0 {
      assert forall k :: 0 <= k < i - 1 ==> clients[1..][k] == clients[k + 1];
      FirstNonEmptyAt(clients[1..], request, i - 1);
    }
  }

  /**
   * Offers the formatted request to each client in order and stops at the first that
   * returns data. `calls` logs the calls made: a prefix of the clients, each once,
   * each with the same formatted request.
   */
  method GetKlineData(clients: seq<KlineClient>, request: KlineDataRequest)
    returns (data: seq<KlineData>, calls: seq<ClientCall>)
    ensures var formatted := ToFormattedRequest(request);
      && |calls| <= |clients|
      && calls == CallsUpTo(|calls|, formatted)
      && (forall k :: 0 <= k < |calls| - 1 ==> clients[k](formatted) == [])
      && (|calls| < |clients| ==> 0 < |calls| && data != [])
      && (data != [] ==> 0 < |calls| && data == clients[|calls| - 1](formatted))
      && (data == [] ==> |calls| == |clients|)
      && data == FirstNonEmpty(clients, formatted)
  {
    var formatted := ToFormattedRequest(request);
    calls := [];
    var i := 0;
    while i < |clients|
      invariant 0 <= i <= |clients|
      invariant calls == CallsUpTo(i, formatted)
      invariant forall k :: 0 <= k < i ==> clients[k](formatted) == []
    {
      var klineData := clients[i](formatted);
      calls := calls + [ClientCall(i, formatted)];
      if klineData != [] {
        FirstNonEmptyAt(clients, formatted, i);
        return klineData, calls;
      }
      i := i + 1;
    }
    FirstNonEmptyEmpty(clients, formatted);
    return [], calls;
  }

  /**
   * With two clients, data from the first is the result; that the second is then
   * never called is stated by the call log of `GetKlineData`.
   */
  lemma FirstClientHasData(first: KlineClient, second: KlineClient, request: KlineDataRequest)
    requires first(ToFormattedRequest(request)) != []
    ensures FirstNonEmpty([first, second], ToFormattedRequest(request)) == first(ToFormattedRequest(request))
  {
  }

  /** With two clients and an empty first answer, the second client's data is returned. */
  lemma {:induction false} SecondClientFallback(first: KlineClient, second: KlineClient, request: KlineDataRequest)
    requires first(ToFormattedRequest(request)) == []
    ensures FirstNonEmpty([first, second], ToFormattedRequest(request)) == second(ToFormattedRequest(request))
  {
    var f := ToFormattedRequest(request);
    assert [first, second][1..] == [second];
    assert [second][1..] == [];
    assert FirstNonEmpty([second], f) == second(f) by {
      if second(f) == [] {
        assert FirstNonEmpty([second], f) == FirstNonEmpty([], f);
      }
    }
  }
}
