/**
 * Validation of coin creation, quote-coin creation and market-data update
 * requests against the coins repository and the exchange list. All checks of a
 * request batch run; their violations are folded into a single categorised error.
 */
module CoinsValidator {
  import opened Wrappers
  import opened CoinsRepository

  /** The inline quote coin of a requested trading pair: an existing id, or a new coin. */
  datatype CoinCreationCoinQuote = CoinCreationCoinQuote(id: Option<int>, symbol: string, name: string)

  /** A requested trading pair; `exchanges` holds the exchange enum values it trades on. */
  datatype CoinCreationTradingPair = CoinCreationTradingPair(coinQuote: CoinCreationCoinQuote, exchanges: seq<int>)

  /** A main coin to create (no id) or an existing coin to make a main coin (id given). */
  datatype CoinCreationRequest = CoinCreationRequest(
    id: Option<int>, symbol: string, name: string, tradingPairs: seq<CoinCreationTradingPair>)

  datatype QuoteCoinCreationRequest = QuoteCoinCreationRequest(symbol: string, name: string)

  datatype CoinMarketDataUpdateRequest = CoinMarketDataUpdateRequest(id: int)

  /** One offending item, as named in the error message. */
  datatype Violation =
    | DuplicateCoin(symbol: string, name: string)
    | MissingCoinId(id: int)
    | InvalidExchange(exchange: int)

  datatype ErrorKind = BadRequest | NotFound

  datatype ValidationError = ValidationError(kind: ErrorKind, items: set<Violation>)

  datatype ValidationResult = Ok | Fail(error: ValidationError)

  /** The repository queries a validation issues, in order. */
  datatype RepositoryCall =
    | QueryCoinsBySymbolNamePairs(pairs: seq<CoinSymbolNamePair>)
    | QueryMissingCoinIds(ids: set<int>)
    | QueryAllExchanges

  // ---- What a creation batch asks about ----

  /** The pairs of a request that name coins still to be created. */
  predicate NamesNewCoin(r: CoinCreationRequest, p: CoinSymbolNamePair)
  {
    || (r.id.None? && p == CoinSymbolNamePair(r.symbol, r.name))
    || exists t :: 0 <= t < |r.tradingPairs| && r.tradingPairs[t].coinQuote.id.None? && p == QuotePairOf(r.tradingPairs[t].coinQuote)
  }

  /** The ids a request refers to: its own and those of its quote coins. */
  predicate NamesId(r: CoinCreationRequest, id: int)
  {
    r.id == Some(id) || exists t :: 0 <= t < |r.tradingPairs| && r.tradingPairs[t].coinQuote.id == Some(id)
  }

  predicate UsesExchange(r: CoinCreationRequest, e: int)
  {
    exists t :: 0 <= t < |r.tradingPairs| && e in r.tradingPairs[t].exchanges
  }

  function QuotePairOf(q: CoinCreationCoinQuote): CoinSymbolNamePair
  {
    CoinSymbolNamePair(q.symbol, q.name)
  }

  function NewQuotePairs(tps: seq<CoinCreationTradingPair>): (ps: seq<CoinSymbolNamePair>)
    ensures forall p :: p in ps <==>
      exists t :: 0 <= t < |tps| && tps[t].coinQuote.id.None? && p == QuotePairOf(tps[t].coinQuote)
  {
    if |tps| == 0 then []
    else
      var q := tps[0].coinQuote;
      var rest := NewQuotePairs(tps[1..]);
      assert forall t :: 1 <= t < |tps| ==> tps[t] == tps[1..][t - 1];
      (if q.id.None? then [CoinSymbolNamePair(q.symbol, q.name)] else []) + rest
  }

  /** The (symbol, name) pairs sent to the duplicate check. */
  function NewCoinPairs(rs: seq<CoinCreationRequest>): (ps: seq<CoinSymbolNamePair>)
    ensures forall p :: p in ps <==> exists i :: 0 <= i < |rs| && NamesNewCoin(rs[i], p)
  {
    if |rs| == 0 then []
    else
      var r := rs[0];
      var own := (if r.id.None? then [CoinSymbolNamePair(r.symbol, r.name)] else []) + NewQuotePairs(r.tradingPairs);
      assert forall p :: p in own <==> NamesNewCoin(r, p);
      var rest := NewCoinPairs(rs[1..]);
      assert forall i :: 1 <= i < |rs| ==> rs[i] == rs[1..][i - 1];
      own + rest
  }

  function QuoteIds(tps: seq<CoinCreationTradingPair>): (ids: set<int>)
    ensures forall id :: id in ids <==> exists t :: 0 <= t < |tps| && tps[t].coinQuote.id == Some(id)
  {
    if |tps| == 0 then {}
    else
      var rest := QuoteIds(tps[1..]);
      assert forall t :: 1 <= t < |tps| ==> tps[t] == tps[1..][t - 1];
      (if tps[0].coinQuote.id.Some? then {tps[0].coinQuote.id.value} else {}) + rest
  }

  /** The id set sent to the missing-id check: main-coin ids and quote-coin ids given. */
  function ReferencedIds(rs: seq<CoinCreationRequest>): (ids: set<int>)
    ensures forall id :: id in ids <==> exists i :: 0 <= i < |rs| && NamesId(rs[i], id)
  {
    if |rs| == 0 then {}
    else
      var r := rs[0];
      var rest := ReferencedIds(rs[1..]);
      assert forall i :: 1 <= i < |rs| ==> rs[i] == rs[1..][i - 1];
      (if r.id.Some? then {r.id.value} else {}) + QuoteIds(r.tradingPairs) + rest
  }

  function PairExchanges(tps: seq<CoinCreationTradingPair>): (es: seq<int>)
    ensures forall e :: e in es <==> exists t :: 0 <= t < |tps| && e in tps[t].exchanges
  {
    if |tps| == 0 then []
    else
      var rest := PairExchanges(tps[1..]);
      assert forall t :: 1 <= t < |tps| ==> tps[t] == tps[1..][t - 1];
      tps[0].exchanges + rest
  }

  /** Every exchange listed by any requested trading pair, in request order. */
  function ExchangesUsed(rs: seq<CoinCreationRequest>): (es: seq<int>)
    ensures forall e :: e in es <==> exists i :: 0 <= i < |rs| && UsesExchange(rs[i], e)
  {
    if |rs| == 0 then []
    else
      var rest := ExchangesUsed(rs[1..]);
      assert forall i :: 1 <= i < |rs| ==> rs[i] == rs[1..][i - 1];
      PairExchanges(rs[0].tradingPairs) + rest
  }

  predicate KnownExchange(exchanges: seq<ExchangesEntity>, e: int)
  {
    exists x :: x in exchanges && x.id == e
  }

  /** What makes a creation batch invalid against the stored coins and exchanges. */
  predicate CreationViolation(rs: seq<CoinCreationRequest>, coins: seq<CoinsEntity>, exchanges: seq<ExchangesEntity>, v: Violation)
  {
    match v
    case DuplicateCoin(s, n) => CoinSymbolNamePair(s, n) in NewCoinPairs(rs) && StoredPair(coins, CoinSymbolNamePair(s, n))
    case MissingCoinId(id) => id in ReferencedIds(rs) && !HasId(coins, id)
    case InvalidExchange(e) => e in ExchangesUsed(rs) && !KnownExchange(exchanges, e)
  }

  /** No violation of any of the three kinds. */
  predicate CreationIsValid(rs: seq<CoinCreationRequest>, coins: seq<CoinsEntity>, exchanges: seq<ExchangesEntity>)
  {
    && (forall p :: p in NewCoinPairs(rs) ==> !StoredPair(coins, p))
    && (forall id :: id in ReferencedIds(rs) ==> HasId(coins, id))
    && (forall e :: e in ExchangesUsed(rs) ==> KnownExchange(exchanges, e))
  }

  /** A batch is valid exactly when no violation exists. */
  lemma CreationValidIffNoViolation(rs: seq<CoinCreationRequest>, coins: seq<CoinsEntity>, exchanges: seq<ExchangesEntity>)
    ensures CreationIsValid(rs, coins, exchanges) <==> forall v :: !CreationViolation(rs, coins, exchanges, v)
  {
    if !CreationIsValid(rs, coins, exchanges) {
      if p :| p in NewCoinPairs(rs) && StoredPair(coins, p) {
        assert CreationViolation(rs, coins, exchanges, DuplicateCoin(p.symbol, p.name));
      } else if id :| id in ReferencedIds(rs) && !HasId(coins, id) {
        assert CreationViolation(rs, coins, exchanges, MissingCoinId(id));
      } else {
        var e :| e in ExchangesUsed(rs) && !KnownExchange(exchanges, e);
        assert CreationViolation(rs, coins, exchanges, InvalidExchange(e));
      }
    }
  }

  function QuotePairs(rs: seq<QuoteCoinCreationRequest>): (ps: seq<CoinSymbolNamePair>)
    ensures |ps| == |rs|
    ensures forall i :: 0 <= i < |rs| ==> ps[i] == CoinSymbolNamePair(rs[i].symbol, rs[i].name)
  {
    seq(|rs|, i requires 0 <= i < |rs| => CoinSymbolNamePair(rs[i].symbol, rs[i].name))
  }

  function UpdateIds(rs: seq<CoinMarketDataUpdateRequest>): (ids: set<int>)
    ensures forall id :: id in ids <==> exists i :: 0 <= i < |rs| && rs[i].id == id
  {
    set i | 0 <= i < |rs| :: rs[i].id
  }

  // ---- The offending items, per check ----

  /**
   * A stored main coin, a missing quote id and an unknown exchange in one batch:
   * all three are violations together, none hides another.
   */
  lemma ViolationsCombine(btc: CoinsEntity, coins: seq<CoinsEntity>, exchanges: seq<ExchangesEntity>, missingId: int, badExchange: int)
    requires btc in coins && !HasId(coins, missingId) && !KnownExchange(exchanges, badExchange)
    ensures var rs := [
        CoinCreationRequest(None, btc.symbol, btc.name, []),
        CoinCreationRequest(None, "ETH", "Ethereum",
          [CoinCreationTradingPair(CoinCreationCoinQuote(Some(missingId), "-", "-"), [badExchange])])];
      && CreationViolation(rs, coins, exchanges, DuplicateCoin(btc.symbol, btc.name))
      && CreationViolation(rs, coins, exchanges, MissingCoinId(missingId))
      && CreationViolation(rs, coins, exchanges, InvalidExchange(badExchange))
      && !CreationIsValid(rs, coins, exchanges)
  {
    var rs := [
        CoinCreationRequest(None, btc.symbol, btc.name, []),
        CoinCreationRequest(None, "ETH", "Ethereum",
          [CoinCreationTradingPair(CoinCreationCoinQuote(Some(missingId), "-", "-"), [badExchange])])];
    assert NamesNewCoin(rs[0], PairOf(btc));
    assert NamesId(rs[1], missingId) by {
      assert rs[1].tradingPairs[0].coinQuote.id == Some(missingId);
    }
    assert UsesExchange(rs[1], badExchange) by {
      assert badExchange in rs[1].tradingPairs[0].exchanges;
    }
  }

  /** One duplicate per coin the symbol/name query returned. */
  function DuplicateItems(found: seq<CoinsEntity>): (items: set<Violation>)
    ensures forall v :: v in items <==> exists c :: c in found && v == DuplicateCoin(c.symbol, c.name)
  {
    if |found| == 0 then {}
    else
      var last := found[|found| - 1];
      var rest := DuplicateItems(found[..|found| - 1]);
      assert forall c :: c in found <==> c in found[..|found| - 1] || c == last;
      rest + {DuplicateCoin(last.symbol, last.name)}
  }

  /** One violation per id the missing-id query returned. */
  function MissingItems(missing: set<int>): (items: set<Violation>)
    ensures forall v :: v in items <==> v.MissingCoinId? && v.id in missing
  {
    set id | id in missing :: MissingCoinId(id)
  }

  /** One violation per listed exchange that is not among the known exchange ids. */
  function InvalidItems(used: seq<int>, knownIds: set<int>): (items: set<Violation>)
    ensures forall v :: v in items <==> v.InvalidExchange? && v.exchange in used && v.exchange !in knownIds
  {
    if |used| == 0 then {}
    else
      var last := used[|used| - 1];
      var rest := InvalidItems(used[..|used| - 1], knownIds);
      assert forall e :: e in used <==> e in used[..|used| - 1] || e == last;
      rest + (if last in knownIds then {} else {InvalidExchange(last)})
  }

  /**
   * Given the two promises of the symbol/name query, the duplicates named are
   * exactly the requested pairs that are stored.
   */
  lemma DuplicatesExact(pairs: seq<CoinSymbolNamePair>, coins: seq<CoinsEntity>, found: seq<CoinsEntity>)
    requires forall c :: c in found ==> c in coins && PairOf(c) in pairs
    requires forall p {:trigger StoredPair(coins, p)} :: p in pairs && StoredPair(coins, p) ==>
      exists f :: f in found && PairOf(f) == p
    ensures forall v :: v in DuplicateItems(found) <==>
      v.DuplicateCoin? && CoinSymbolNamePair(v.symbol, v.name) in pairs && StoredPair(coins, CoinSymbolNamePair(v.symbol, v.name))
  {
    forall v: Violation | v.DuplicateCoin? && CoinSymbolNamePair(v.symbol, v.name) in pairs && StoredPair(coins, CoinSymbolNamePair(v.symbol, v.name))
      ensures v in DuplicateItems(found)
    {
      var f :| f in found && PairOf(f) == CoinSymbolNamePair(v.symbol, v.name);
      assert v == DuplicateCoin(f.symbol, f.name);
    }
  }

  /** The three item sets together are exactly the creation violations. */
  lemma CreationItemsExact(rs: seq<CoinCreationRequest>, coins: seq<CoinsEntity>, exchanges: seq<ExchangesEntity>,
                           found: seq<CoinsEntity>, missing: set<int>, knownIds: set<int>)
    requires forall c :: c in found ==> c in coins && PairOf(c) in NewCoinPairs(rs)
    requires forall p {:trigger StoredPair(coins, p)} :: p in NewCoinPairs(rs) && StoredPair(coins, p) ==>
      exists f :: f in found && PairOf(f) == p
    requires forall id :: id in missing <==> id in ReferencedIds(rs) && !HasId(coins, id)
    requires forall e :: e in knownIds <==> KnownExchange(exchanges, e)
    ensures var items := DuplicateItems(found) + MissingItems(missing) + InvalidItems(ExchangesUsed(rs), knownIds);
      && (forall v :: v in items <==> CreationViolation(rs, coins, exchanges, v))
      && (items == {} <==> CreationIsValid(rs, coins, exchanges))
  {
    DuplicatesExact(NewCoinPairs(rs), coins, found);
    CreationValidIffNoViolation(rs, coins, exchanges);
  }

  /** The ids of the exchange list, as a set. */
  function KnownIds(exchanges: seq<ExchangesEntity>): (ids: set<int>)
    ensures forall e :: e in ids <==> KnownExchange(exchanges, e)
  {
    set x | x in exchanges :: x.id
  }

  /** Names every coin the symbol/name query returned as a duplicate. */
  method CollectDuplicates(found: seq<CoinsEntity>) returns (items: set<Violation>)
    ensures items == DuplicateItems(found)
  {
    items := {};
    for i := 0 to |found|
      invariant items == DuplicateItems(found[..i])
    {
      assert found[..i + 1][..i] == found[..i];
      items := items + {DuplicateCoin(found[i].symbol, found[i].name)};
    }
    assert found[..|found|] == found;
  }

  /** Names every listed exchange that is not among the known exchange ids. */
  method CollectInvalidExchanges(used: seq<int>, knownIds: set<int>) returns (invalid: set<Violation>)
    ensures invalid == InvalidItems(used, knownIds)
  {
    invalid := {};
    for k := 0 to |used|
      invariant invalid == InvalidItems(used[..k], knownIds)
    {
      assert used[..k + 1][..k] == used[..k];
      if used[k] !in knownIds {
        invalid := invalid + {InvalidExchange(used[k])};
      }
    }
    assert used[..|used|] == used;
  }

  class CoinsValidatorService {
    const coinsRepository: CoinsStore

    constructor (repository: CoinsStore)
      ensures coinsRepository == repository
    {
      coinsRepository := repository;
    }

    /**
     * Checks a creation batch: no coin to be created may exist already, every
     * given id must exist and every exchange must be known. One error of kind
     * BadRequest lists every violation found.
     */
    method ValidateCoinCreationRequests(requests: seq<CoinCreationRequest>) returns (r: ValidationResult, calls: seq<RepositoryCall>)
      requires coinsRepository.Valid()
      ensures calls == [QueryCoinsBySymbolNamePairs(NewCoinPairs(requests)), QueryMissingCoinIds(ReferencedIds(requests)), QueryAllExchanges]
      ensures r.Ok? <==> CreationIsValid(requests, coinsRepository.coins, coinsRepository.exchanges)
      ensures r.Fail? ==> r.error.kind == BadRequest && r.error.items != {}
      ensures r.Fail? ==> forall v :: v in r.error.items <==>
        CreationViolation(requests, coinsRepository.coins, coinsRepository.exchanges, v)
    {
      var pairs := NewCoinPairs(requests);
      var existingCoins := coinsRepository.GetCoinsBySymbolNamePairs(pairs);
      var ids := ReferencedIds(requests);
      var missingIds := coinsRepository.GetMissingCoinIds(ids);
      var exchanges := coinsRepository.exchanges;
      calls := [QueryCoinsBySymbolNamePairs(pairs), QueryMissingCoinIds(ids), QueryAllExchanges];
      var knownIds := KnownIds(exchanges);

      var duplicates := CollectDuplicates(existingCoins);
      var invalid := CollectInvalidExchanges(ExchangesUsed(requests), knownIds);
      var items := duplicates + MissingItems(missingIds) + invalid;

      ghost var coins := coinsRepository.coins;
      CreationItemsExact(requests, coins, exchanges, existingCoins, missingIds, knownIds);
      if items == {} {
        r := Ok;
      } else {
        r := Fail(ValidationError(BadRequest, items));
      }
    }

    /** Quote coins to create must not exist already; every one that does is listed. */
    method ValidateQuoteCoinCreationRequests(requests: seq<QuoteCoinCreationRequest>) returns (r: ValidationResult, calls: seq<RepositoryCall>)
      requires coinsRepository.Valid()
      ensures calls == [QueryCoinsBySymbolNamePairs(QuotePairs(requests))]
      ensures r.Ok? <==> forall i :: 0 <= i < |requests| ==> !StoredPair(coinsRepository.coins, QuotePairs(requests)[i])
      ensures r.Fail? ==> r.error.kind == BadRequest && r.error.items != {}
      ensures r.Fail? ==> forall v :: v in r.error.items <==>
        v.DuplicateCoin? && CoinSymbolNamePair(v.symbol, v.name) in QuotePairs(requests)
        && StoredPair(coinsRepository.coins, CoinSymbolNamePair(v.symbol, v.name))
    {
      var pairs := QuotePairs(requests);
      var existingCoins := coinsRepository.GetCoinsBySymbolNamePairs(pairs);
      calls := [QueryCoinsBySymbolNamePairs(pairs)];
      var items := DuplicateItems(existingCoins);
      DuplicatesExact(pairs, coinsRepository.coins, existingCoins);
      if items == {} {
        r := Ok;
      } else {
        r := Fail(ValidationError(BadRequest, items));
      }
      assert r.Ok? ==> forall i :: 0 <= i < |requests| ==> DuplicateCoin(pairs[i].symbol, pairs[i].name) !in items;
    }

    /** Every coin to update must exist; the missing ids are reported as NotFound. */
    method ValidateMarketDataUpdateRequests(requests: seq<CoinMarketDataUpdateRequest>) returns (r: ValidationResult, calls: seq<RepositoryCall>)
      ensures calls == [QueryMissingCoinIds(UpdateIds(requests))]
      ensures r.Ok? <==> forall i :: 0 <= i < |requests| ==> HasId(coinsRepository.coins, requests[i].id)
      ensures r.Fail? ==> r.error.kind == NotFound && r.error.items != {}
      ensures r.Fail? ==> forall v :: v in r.error.items <==>
        v.MissingCoinId? && v.id in UpdateIds(requests) && !HasId(coinsRepository.coins, v.id)
    {
      var ids := UpdateIds(requests);
      var missingIds := coinsRepository.GetMissingCoinIds(ids);
      calls := [QueryMissingCoinIds(ids)];
      var items := MissingItems(missingIds);
      if items == {} {
        r := Ok;
        assert forall i :: 0 <= i < |requests| ==> MissingCoinId(requests[i].id) !in items;
      } else {
        r := Fail(ValidationError(NotFound, items));
      }
    }
  }
}
