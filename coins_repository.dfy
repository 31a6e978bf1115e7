/**
 * The coins registry's repository over an in-memory table store: coin rows in
 * table order, trading-pair rows and the seeded exchange rows. Identifiers come
 * from an auto-increment counter.
 */
module CoinsRepository {
  import opened Wrappers

  datatype CoinsEntity = CoinsEntity(
    id: int,
    symbol: string,
    name: string,
    isFiat: bool,
    isStablecoin: bool,
    idCoinGecko: Option<string>,
    marketCapUsd: Option<int>,
    priceUsd: Option<string>,
    priceChangePercentage24h: Option<int>)

  /** The lookup key used to find coins that already exist. */
  datatype CoinSymbolNamePair = CoinSymbolNamePair(symbol: string, name: string)

  datatype ExchangesEntity = ExchangesEntity(id: int, name: string)

  /** A trading pair row; `exchanges` holds the ids of the exchanges it trades on. */
  datatype TradingPairsEntity = TradingPairsEntity(
    id: int, idCoinMain: int, idCoinQuote: int, exchanges: seq<int>)

  /** A coin with its trading pairs (those in which it is the main coin) loaded. */
  datatype CoinWithRelations = CoinWithRelations(coin: CoinsEntity, tradingPairs: seq<TradingPairsEntity>)

  /** Why `SaveChanges` refuses an update batch. */
  datatype StoreError =
    | CoinNotFound(id: int)       // no row with that key: zero rows affected
    | CoinTrackedTwice(id: int)   // two entities of the batch share a key

  function PairOf(c: CoinsEntity): CoinSymbolNamePair { CoinSymbolNamePair(c.symbol, c.name) }

  /** Strictly increasing ids: the order an auto-increment key gives the table. */
  predicate IdsAscending(rows: seq<CoinsEntity>)
  {
    forall i, j :: 0 <= i < j < |rows| ==> rows[i].id < rows[j].id
  }

  /** Some stored coin has this symbol and name. */
  predicate StoredPair(rows: seq<CoinsEntity>, p: CoinSymbolNamePair)
  {
    exists c :: c in rows && PairOf(c) == p
  }

  predicate HasId(rows: seq<CoinsEntity>, id: int)
  {
    exists i :: 0 <= i < |rows| && rows[i].id == id
  }

  /** The rows kept by `keep`, in table order. */
  function CoinsWhere(rows: seq<CoinsEntity>, keep: CoinsEntity -> bool): (r: seq<CoinsEntity>)
    ensures |r| <= |rows|
    ensures forall c :: c in r <==> c in rows && keep(c)
  {
    if |rows| == 0 then []
    else
      assert forall c :: c in rows <==> c == rows[0] || c in rows[1..];
      (if keep(rows[0]) then [rows[0]] else []) + CoinsWhere(rows[1..], keep)
  }

  /** Filtering keeps the table's key order. */
  lemma {:induction false} CoinsWhereAscending(rows: seq<CoinsEntity>, keep: CoinsEntity -> bool)
    ensures IdsAscending(rows) ==> IdsAscending(CoinsWhere(rows, keep))
  {
    if |rows| > 0 && IdsAscending(rows) {
      var rest := CoinsWhere(rows[1..], keep);
      CoinsWhereAscending(rows[1..], keep);
      forall c | c in rest ensures rows[0].id < c.id {
        var j :| 0 <= j < |rows[1..]| && rows[1..][j] == c;
        assert rows[j + 1] == c;
      }
    }
  }

  function IdIn(ids: seq<int>): CoinsEntity -> bool
  {
    (c: CoinsEntity) => c.id in ids
  }

  /** No row kept: nothing returned. */
  lemma {:induction false} CoinsWhereNone(rows: seq<CoinsEntity>, keep: CoinsEntity -> bool)
    requires forall i :: 0 <= i < |rows| ==> !keep(rows[i])
    ensures CoinsWhere(rows, keep) == []
  {
    if |rows| > 0 {
      CoinsWhereNone(rows[1..], keep);
    }
  }

  /** In an ascending table, a filter that keeps exactly one key returns exactly its row. */
  lemma {:induction false} CoinsWhereSingle(rows: seq<CoinsEntity>, keep: CoinsEntity -> bool, row: CoinsEntity)
    requires IdsAscending(rows) && row in rows
    requires forall i :: 0 <= i < |rows| ==> (keep(rows[i]) <==> rows[i].id == row.id)
    ensures CoinsWhere(rows, keep) == [row]
  {
    if rows[0] == row {
      CoinsWhereNone(rows[1..], keep);
    } else {
      var j :| 0 <= j < |rows| && rows[j] == row;
      assert rows[1..][j - 1] == row;
      CoinsWhereSingle(rows[1..], keep, row);
    }
  }

  /** The coins whose id is in `ids`; ids that name no row are ignored. */
  function CoinsByIds(rows: seq<CoinsEntity>, ids: seq<int>): (r: seq<CoinsEntity>)
    ensures forall c :: c in r <==> c in rows && c.id in ids
    ensures IdsAscending(rows) ==> IdsAscending(r)
    ensures ids == [] ==> r == []
  {
    var r := CoinsWhere(rows, IdIn(ids));
    CoinsWhereAscending(rows, IdIn(ids));
    assert |r| > 0 ==> r[0] in r;
    r
  }

  /** The trading pairs in which coin `id` is the main coin. */
  function PairsOfMain(pairs: seq<TradingPairsEntity>, id: int): (r: seq<TradingPairsEntity>)
    ensures forall p :: p in r <==> p in pairs && p.idCoinMain == id
  {
    if |pairs| == 0 then []
    else
      assert forall p :: p in pairs <==> p == pairs[0] || p in pairs[1..];
      (if pairs[0].idCoinMain == id then [pairs[0]] else []) + PairsOfMain(pairs[1..], id)
  }

  function WithRelations(rows: seq<CoinsEntity>, pairs: seq<TradingPairsEntity>): (r: seq<CoinWithRelations>)
    ensures |r| == |rows|
    ensures forall i :: 0 <= i < |rows| ==> r[i].coin == rows[i] && r[i].tradingPairs == PairsOfMain(pairs, rows[i].id)
  {
    seq(|rows|, i requires 0 <= i < |rows| => CoinWithRelations(rows[i], PairsOfMain(pairs, rows[i].id)))
  }

  /** Is the coin the main or the quote coin of some trading pair? */
  predicate IsReferenced(pairs: seq<TradingPairsEntity>, id: int)
  {
    exists k :: 0 <= k < |pairs| && (pairs[k].idCoinMain == id || pairs[k].idCoinQuote == id)
  }

  /** The condition the sweep keeps a coin by: some trading pair references it. */
  function ReferencedBy(pairs: seq<TradingPairsEntity>): CoinsEntity -> bool
  {
    (c: CoinsEntity) => IsReferenced(pairs, c.id)
  }

  /**
   * Sweeping the unreferenced coins keeps the keys ascending and below the counter,
   * and keeps every coin a trading pair references.
   */
  lemma SweepKeepsReferences(rows: seq<CoinsEntity>, pairs: seq<TradingPairsEntity>, nextId: int)
    requires IdsAscending(rows) && forall i :: 0 <= i < |rows| ==> 1 <= rows[i].id < nextId
    requires forall k :: 0 <= k < |pairs| ==> HasId(rows, pairs[k].idCoinMain) && HasId(rows, pairs[k].idCoinQuote)
    ensures var kept := CoinsWhere(rows, ReferencedBy(pairs));
      && IdsAscending(kept)
      && (forall i :: 0 <= i < |kept| ==> 1 <= kept[i].id < nextId)
      && (forall k :: 0 <= k < |pairs| ==> HasId(kept, pairs[k].idCoinMain) && HasId(kept, pairs[k].idCoinQuote))
  {
    var kept := CoinsWhere(rows, ReferencedBy(pairs));
    CoinsWhereAscending(rows, ReferencedBy(pairs));
    forall i | 0 <= i < |kept| ensures 1 <= kept[i].id < nextId {
      assert kept[i] in rows;
    }
    forall k | 0 <= k < |pairs|
      ensures HasId(kept, pairs[k].idCoinMain) && HasId(kept, pairs[k].idCoinQuote)
    {
      var i :| 0 <= i < |rows| && rows[i].id == pairs[k].idCoinMain;
      assert ReferencedBy(pairs)(rows[i]);
      assert rows[i] in kept;
      var j :| 0 <= j < |rows| && rows[j].id == pairs[k].idCoinQuote;
      assert ReferencedBy(pairs)(rows[j]);
      assert rows[j] in kept;
    }
  }

  /** New entities as `SaveChanges` numbers them: consecutive keys from `nextId`, in order. */
  function WithFreshIds(newCoins: seq<CoinsEntity>, nextId: int): (r: seq<CoinsEntity>)
    ensures |r| == |newCoins|
    ensures forall i :: 0 <= i < |r| ==> r[i].id == nextId + i && r[i].(id := newCoins[i].id) == newCoins[i]
    ensures IdsAscending(r)
  {
    seq(|newCoins|, i requires 0 <= i < |newCoins| => newCoins[i].(id := nextId + i))
  }

  /** The first entity of the batch with key `id`. */
  function UpdateFor(updates: seq<CoinsEntity>, id: int): (r: Option<CoinsEntity>)
    ensures r.Some? <==> exists k :: 0 <= k < |updates| && updates[k].id == id
    ensures r.Some? ==> r.value in updates && r.value.id == id
  {
    if |updates| == 0 then None
    else if updates[0].id == id then Some(updates[0])
    else
      var r := UpdateFor(updates[1..], id);
      assert forall k :: 1 <= k < |updates| ==> updates[k] == updates[1..][k - 1];
      r
  }

  /** Every row whose key is in the batch is overwritten by that entity. */
  function ApplyUpdates(rows: seq<CoinsEntity>, updates: seq<CoinsEntity>): (r: seq<CoinsEntity>)
    ensures |r| == |rows|
    ensures forall i :: 0 <= i < |rows| ==> r[i].id == rows[i].id
    ensures forall i :: 0 <= i < |rows| && !HasId(updates, rows[i].id) ==> r[i] == rows[i]
    ensures forall i :: 0 <= i < |rows| && HasId(updates, rows[i].id) ==> r[i] in updates
  {
    seq(|rows|, i requires 0 <= i < |rows| =>
      match UpdateFor(updates, rows[i].id)
      case Some(u) => u
      case None => rows[i])
  }

  /** The condition a row meets when it carries the given symbol and name. */
  function HasPair(p: CoinSymbolNamePair): CoinsEntity -> bool
  {
    (c: CoinsEntity) => PairOf(c) == p
  }

  /** The first stored row, in table order, with the given symbol and name. */
  function StoredMatch(rows: seq<CoinsEntity>, p: CoinSymbolNamePair): (r: Option<CoinsEntity>)
    ensures r.Some? <==> StoredPair(rows, p)
    ensures r.Some? ==> r.value in rows && PairOf(r.value) == p
  {
    var hits := CoinsWhere(rows, HasPair(p));
    assert forall c :: c in rows && PairOf(c) == p ==> c in hits;
    if |hits| > 0 then assert hits[0] in hits; Some(hits[0]) else None
  }

  /** The stored row with the probe's symbol and name, or the probe itself. */
  function FillFrom(rows: seq<CoinsEntity>, probe: CoinsEntity): (r: CoinsEntity)
    ensures if exists c :: c in rows && PairOf(c) == PairOf(probe)
      then r in rows && PairOf(r) == PairOf(probe)
      else r == probe
  {
    match StoredMatch(rows, PairOf(probe))
    case Some(c) => c
    case None => probe
  }

  /**
   * What a symbol/name query answers: one stored row per requested pair that is
   * stored, in the order of the request; pairs that are not stored contribute nothing.
   */
  function MatchesInOrder(rows: seq<CoinsEntity>, pairs: seq<CoinSymbolNamePair>): (r: seq<CoinsEntity>)
    ensures |r| <= |pairs|
    ensures forall c :: c in r ==> c in rows && PairOf(c) in pairs
  {
    if |pairs| == 0 then []
    else
      var rest := MatchesInOrder(rows, pairs[1..]);
      assert forall p :: p in pairs[1..] ==> p in pairs;
      (match StoredMatch(rows, pairs[0]) case Some(c) => [c] case None => []) + rest
  }

  /** Asking for two lists of pairs at once answers the first list, then the second. */
  lemma {:induction false} MatchesAppend(rows: seq<CoinsEntity>, a: seq<CoinSymbolNamePair>, b: seq<CoinSymbolNamePair>)
    ensures MatchesInOrder(rows, a + b) == MatchesInOrder(rows, a) + MatchesInOrder(rows, b)
  {
    if |a| > 0 {
      assert (a + b)[0] == a[0];
      assert (a + b)[1..] == a[1..] + b;
      MatchesAppend(rows, a[1..], b);
      var head := match StoredMatch(rows, a[0]) case Some(c) => [c] case None => [];
      assert MatchesInOrder(rows, a + b) == head + (MatchesInOrder(rows, a[1..]) + MatchesInOrder(rows, b));
      assert MatchesInOrder(rows, a) == head + MatchesInOrder(rows, a[1..]);
    } else {
      assert a + b == b;
    }
  }

  /** One requested pair gets its stored row if it is stored, and nothing otherwise. */
  lemma MatchesSingle(rows: seq<CoinsEntity>, p: CoinSymbolNamePair)
    ensures StoredPair(rows, p) ==> exists c :: c in rows && PairOf(c) == p && MatchesInOrder(rows, [p]) == [c]
    ensures !StoredPair(rows, p) ==> MatchesInOrder(rows, [p]) == []
  {
    assert [p][1..] == [];
  }

  /** With only the first of two requested coins stored, the query returns that coin once. */
  lemma OneMatchPerStoredPair(stored: CoinsEntity, other: CoinSymbolNamePair)
    requires other != PairOf(stored)
    ensures MatchesInOrder([stored], [PairOf(stored), other]) == [stored]
  {
    assert [PairOf(stored), other] == [PairOf(stored)] + [other];
    MatchesAppend([stored], [PairOf(stored)], [other]);
    MatchesSingle([stored], PairOf(stored));
    MatchesSingle([stored], other);
  }

  /** The bulk read of the probes, filtered to the found ones, is the reference answer. */
  lemma {:induction false} BulkReadInOrder(rows: seq<CoinsEntity>, pairs: seq<CoinSymbolNamePair>)
    requires forall i :: 0 <= i < |rows| ==> rows[i].id != 0
    ensures CoinsWhere(BulkRead(rows, Probes(pairs)), IsStoredRow) == MatchesInOrder(rows, pairs)
  {
    if |pairs| > 0 {
      var filled := BulkRead(rows, Probes(pairs));
      assert filled[1..] == BulkRead(rows, Probes(pairs[1..]));
      BulkReadInOrder(rows, pairs[1..]);
      assert PairOf(Probes(pairs)[0]) == pairs[0];
      assert filled[0] == FillFrom(rows, Probes(pairs)[0]);
      match StoredMatch(rows, pairs[0])
      case Some(c) =>
        assert filled[0] == c;
        assert c.id != 0;
      case None =>
        assert filled[0].id == 0;
    }
  }

  /** An entity carrying only the lookup key; its id 0 marks it as not stored. */
  function Probe(p: CoinSymbolNamePair): (r: CoinsEntity)
    ensures r.id == 0 && PairOf(r) == p
  {
    CoinsEntity(0, p.symbol, p.name, false, false, None, None, None, None)
  }

  /**
   * `BulkRead` keyed by symbol and name: each probe entity is filled in from the
   * stored row with its symbol and name, if there is one; the others keep id 0.
   */
  function BulkRead(rows: seq<CoinsEntity>, probes: seq<CoinsEntity>): (r: seq<CoinsEntity>)
    ensures |r| == |probes|
    ensures forall i :: 0 <= i < |r| ==> r[i] == FillFrom(rows, probes[i])
  {
    seq(|probes|, i requires 0 <= i < |probes| => FillFrom(rows, probes[i]))
  }

  /** One probe per requested pair, in request order. */
  function Probes(pairs: seq<CoinSymbolNamePair>): (r: seq<CoinsEntity>)
    ensures |r| == |pairs|
    ensures forall i :: 0 <= i < |r| ==> r[i].id == 0 && PairOf(r[i]) == pairs[i]
  {
    seq(|pairs|, i requires 0 <= i < |pairs| => Probe(pairs[i]))
  }

  /** A read-back probe that found its row carries a stored, non-zero key. */
  predicate IsStoredRow(c: CoinsEntity) { c.id != 0 }

  lemma FoundAreStored(rows: seq<CoinsEntity>, pairs: seq<CoinSymbolNamePair>)
    ensures forall c :: c in CoinsWhere(BulkRead(rows, Probes(pairs)), IsStoredRow) ==>
      c in rows && PairOf(c) in pairs
  {
    var probes := Probes(pairs);
    var filled := BulkRead(rows, probes);
    forall c | c in CoinsWhere(filled, IsStoredRow) ensures c in rows && PairOf(c) in pairs {
      assert c in filled && IsStoredRow(c);
      var i :| 0 <= i < |filled| && filled[i] == c;
      assert PairOf(probes[i]) == pairs[i] && probes[i].id == 0;
      assert StoredMatch(rows, pairs[i]).Some? && c == StoredMatch(rows, pairs[i]).value;
    }
  }

  lemma StoredAreFound(rows: seq<CoinsEntity>, pairs: seq<CoinSymbolNamePair>)
    requires forall i :: 0 <= i < |rows| ==> rows[i].id != 0
    ensures forall p {:trigger StoredPair(rows, p)} :: p in pairs && StoredPair(rows, p) ==>
      exists f :: f in CoinsWhere(BulkRead(rows, Probes(pairs)), IsStoredRow) && PairOf(f) == p
  {
    var probes := Probes(pairs);
    var filled := BulkRead(rows, probes);
    forall p | p in pairs && StoredPair(rows, p)
      ensures exists f :: f in CoinsWhere(filled, IsStoredRow) && PairOf(f) == p
    {
      var i :| 0 <= i < |pairs| && pairs[i] == p;
      assert PairOf(probes[i]) == p;
      assert filled[i] == StoredMatch(rows, p).value;
      assert IsStoredRow(filled[i]);
    }
  }

  /** The default key: `UpdateRange` marks such an entity Added, so saving inserts it. */
  predicate IsNewRow(c: CoinsEntity) { c.id == 0 }

  /** No non-default key appears twice in the batch. */
  predicate DistinctKeys(rows: seq<CoinsEntity>)
  {
    forall i, j :: 0 <= i < j < |rows| && rows[i].id != 0 ==> rows[i].id != rows[j].id
  }

  /**
   * The batch as `SaveChanges` leaves it: entities with the default key get
   * consecutive keys from `nextId`, in batch order; the others are untouched.
   */
  function NumberNew(updates: seq<CoinsEntity>, nextId: int): (r: seq<CoinsEntity>)
    ensures |r| == |updates|
    ensures forall i :: 0 <= i < |updates| && updates[i].id != 0 ==> r[i] == updates[i]
    ensures forall i :: 0 <= i < |updates| && updates[i].id == 0 ==> nextId <= r[i].id && r[i].(id := 0) == updates[i]
  {
    if |updates| == 0 then []
    else
      var first := updates[0];
      if first.id == 0 then [first.(id := nextId)] + NumberNew(updates[1..], nextId + 1)
      else [first] + NumberNew(updates[1..], nextId)
  }

  /** Numbering a longer batch numbers its head first, then the rest from the next key. */
  lemma WithFreshIdsCons(first: CoinsEntity, rest: seq<CoinsEntity>, nextId: int)
    ensures WithFreshIds([first] + rest, nextId) == [first.(id := nextId)] + WithFreshIds(rest, nextId + 1)
  {
    var lhs, rhs := WithFreshIds([first] + rest, nextId), [first.(id := nextId)] + WithFreshIds(rest, nextId + 1);
    forall i | 0 <= i < |lhs| ensures lhs[i] == rhs[i] {
      if i > 0 {
        assert ([first] + rest)[i] == rest[i - 1];
      }
    }
  }

  /**
   * The entities of the batch that come back with new keys are exactly the rows
   * the save appends: the default-key entities numbered as an insert numbers them.
   */
  lemma {:induction false} NumberNewAgrees(updates: seq<CoinsEntity>, nextId: int)
    ensures forall c :: c in WithFreshIds(CoinsWhere(updates, IsNewRow), nextId) <==>
      exists i :: 0 <= i < |updates| && updates[i].id == 0 && NumberNew(updates, nextId)[i] == c
  {
    if |updates| > 0 {
      var first, rest := updates[0], updates[1..];
      var numbered := NumberNew(updates, nextId);
      var n' := if first.id == 0 then nextId + 1 else nextId;
      NumberNewAgrees(rest, n');
      assert numbered[1..] == NumberNew(rest, n');
      forall i | 1 <= i < |updates| ensures updates[i] == rest[i - 1] && numbered[i] == NumberNew(rest, n')[i - 1] { }
      if first.id == 0 {
        assert CoinsWhere(updates, IsNewRow) == [first] + CoinsWhere(rest, IsNewRow);
        WithFreshIdsCons(first, CoinsWhere(rest, IsNewRow), nextId);
        assert numbered[0] == first.(id := nextId);
      } else {
        assert CoinsWhere(updates, IsNewRow) == CoinsWhere(rest, IsNewRow);
      }
    }
  }

  /** With distinct keys in the batch, each entity with a stored key is stored as given. */
  lemma UpdatedCoinStored(rows: seq<CoinsEntity>, updates: seq<CoinsEntity>, k: nat)
    requires DistinctKeys(updates) && k < |updates| && updates[k].id != 0 && HasId(rows, updates[k].id)
    ensures updates[k] in ApplyUpdates(rows, updates)
  {
    var i :| 0 <= i < |rows| && rows[i].id == updates[k].id;
    var u := UpdateFor(updates, rows[i].id).value;
    var j :| 0 <= j < |updates| && updates[j] == u;
    assert j == k;
    assert ApplyUpdates(rows, updates)[i] == updates[k];
  }

  /** An update batch keeps every key of the table where it was, so the key order too. */
  lemma ApplyUpdatesKeepsKeys(rows: seq<CoinsEntity>, updates: seq<CoinsEntity>)
    ensures var after := ApplyUpdates(rows, updates);
      && (forall id :: HasId(rows, id) ==> HasId(after, id))
      && (IdsAscending(rows) ==> IdsAscending(after))
  {
    var after := ApplyUpdates(rows, updates);
    forall id | HasId(rows, id) ensures HasId(after, id) {
      var i :| 0 <= i < |rows| && rows[i].id == id;
      assert after[i].id == id;
    }
    if IdsAscending(rows) {
      forall i, j | 0 <= i < j < |after| ensures after[i].id < after[j].id {
        assert after[i].id == rows[i].id && after[j].id == rows[j].id;
      }
    }
  }

  /**
   * Saving an update batch keeps every stored key, keeps the keys ascending, and
   * keeps them positive and below the advanced counter.
   */
  lemma SaveKeepsKeys(rows: seq<CoinsEntity>, updates: seq<CoinsEntity>, nextId: int)
    requires 1 <= nextId
    requires IdsAscending(rows) && forall i :: 0 <= i < |rows| ==> 1 <= rows[i].id < nextId
    ensures var added := WithFreshIds(CoinsWhere(updates, IsNewRow), nextId);
      var saved := ApplyUpdates(rows, updates) + added;
      && (forall id :: HasId(rows, id) ==> HasId(saved, id))
      && IdsAscending(saved)
      && (forall i :: 0 <= i < |saved| ==> 1 <= saved[i].id < nextId + |added|)
  {
    var added := WithFreshIds(CoinsWhere(updates, IsNewRow), nextId);
    var updated := ApplyUpdates(rows, updates);
    var saved := updated + added;
    ApplyUpdatesKeepsKeys(rows, updates);
    AppendAscending(updated, added, nextId);
    forall id | HasId(rows, id) ensures HasId(saved, id) {
      var i :| 0 <= i < |updated| && updated[i].id == id;
      assert saved[i] == updated[i];
    }
    forall i | 0 <= i < |saved| ensures 1 <= saved[i].id < nextId + |added| {
      if i < |updated| {
        assert saved[i].id == updated[i].id == rows[i].id;
      } else {
        assert saved[i] == added[i - |updated|];
        assert saved[i].id == nextId + (i - |updated|);
      }
    }
  }

  /** Rows numbered after every stored key keep the table ascending. */
  lemma AppendAscending(rows: seq<CoinsEntity>, added: seq<CoinsEntity>, nextId: int)
    requires IdsAscending(rows) && forall i :: 0 <= i < |rows| ==> rows[i].id < nextId
    requires IdsAscending(added) && forall i :: 0 <= i < |added| ==> nextId <= added[i].id
    ensures IdsAscending(rows + added)
  {
    var all := rows + added;
    forall i, j | 0 <= i < j < |all| ensures all[i].id < all[j].id {
      if j < |rows| {
      } else if i < |rows| {
        assert all[j] == added[j - |rows|];
      } else {
        assert all[i] == added[i - |rows|] && all[j] == added[j - |rows|];
      }
    }
  }

  /** In a table with distinct keys, looking up a stored row's key yields exactly that row. */
  lemma LookupStoredRow(rows: seq<CoinsEntity>, row: CoinsEntity)
    requires IdsAscending(rows) && row in rows
    ensures CoinsByIds(rows, [row.id]) == [row]
  {
    CoinsWhereSingle(rows, IdIn([row.id]), row);
  }

  /** Inserted coins are found again by their new ids. */
  lemma InsertedCoinFoundById(rows: seq<CoinsEntity>, nextId: int, newCoins: seq<CoinsEntity>, k: nat)
    requires IdsAscending(rows) && forall i :: 0 <= i < |rows| ==> rows[i].id < nextId
    requires k < |newCoins|
    ensures var inserted := WithFreshIds(newCoins, nextId);
      CoinsByIds(rows + inserted, [nextId + k]) == [inserted[k]]
  {
    var inserted := WithFreshIds(newCoins, nextId);
    AppendAscending(rows, inserted, nextId);
    assert (rows + inserted)[|rows| + k] == inserted[k];
    LookupStoredRow(rows + inserted, inserted[k]);
  }

  class CoinsStore {
    var coins: seq<CoinsEntity>
    var tradingPairs: seq<TradingPairsEntity>
    var exchanges: seq<ExchangesEntity>
    var nextId: int

    /** Keys are positive, below the counter and ascending; pairs reference stored coins. */
    ghost predicate Valid()
      reads this
    {
      && 1 <= nextId
      && IdsAscending(coins)
      && (forall i :: 0 <= i < |coins| ==> 1 <= coins[i].id < nextId)
      && (forall k :: 0 <= k < |tradingPairs| ==>
            HasId(coins, tradingPairs[k].idCoinMain) && HasId(coins, tradingPairs[k].idCoinQuote))
    }

    /** An empty store with its exchange rows seeded. */
    constructor (seededExchanges: seq<ExchangesEntity>)
      ensures Valid()
      ensures coins == [] && tradingPairs == [] && exchanges == seededExchanges && nextId == 1
    {
      coins, tradingPairs, exchanges, nextId := [], [], seededExchanges, 1;
    }

    /** Every coin in table order, each with the trading pairs it is the main coin of. */
    function GetAllCoinsWithRelations(): (r: seq<CoinWithRelations>)
      reads this
      ensures |r| == |coins|
      ensures forall i :: 0 <= i < |coins| ==>
        r[i].coin == coins[i] && forall p :: p in r[i].tradingPairs <==> p in tradingPairs && p.idCoinMain == coins[i].id
    {
      WithRelations(coins, tradingPairs)
    }

    /** Exactly the stored coins whose id is requested, in table order. */
    function GetCoinsByIds(ids: seq<int>): (r: seq<CoinsEntity>)
      reads this
      ensures forall c :: c in r <==> c in coins && c.id in ids
      ensures IdsAscending(coins) ==> IdsAscending(r)
    {
      CoinsByIds(coins, ids)
    }

    /** The requested coins with their trading pairs loaded. */
    function GetCoinsByIdsWithRelations(ids: seq<int>): (r: seq<CoinWithRelations>)
      reads this
      ensures forall i :: 0 <= i < |r| ==> r[i].coin in coins && r[i].coin.id in ids
      ensures forall c :: c in coins && c.id in ids ==> exists i :: 0 <= i < |r| && r[i].coin == c
      ensures forall i :: 0 <= i < |r| ==>
        forall p :: p in r[i].tradingPairs <==> p in tradingPairs && p.idCoinMain == r[i].coin.id
      ensures |r| == |CoinsByIds(coins, ids)|
      ensures forall i :: 0 <= i < |r| ==> r[i].coin == CoinsByIds(coins, ids)[i]
      ensures IdsAscending(coins) ==> forall i, j :: 0 <= i < j < |r| ==> r[i].coin.id < r[j].coin.id
    {
      var found := CoinsByIds(coins, ids);
      assert forall c :: c in found ==> exists i :: 0 <= i < |found| && found[i] == c;
      WithRelations(found, tradingPairs)
    }

    /** Whether some stored coin has this id. */
    function CheckCoinExists(coinId: int): (r: bool)
      reads this
      ensures r <==> HasId(coins, coinId)
    {
      var matching := CoinsWhere(coins, (c: CoinsEntity) => c.id == coinId);
      assert HasId(coins, coinId) ==> exists i :: 0 <= i < |coins| && coins[i] in matching;
      assert |matching| > 0 ==> matching[0] in coins && matching[0].id == coinId;
      |matching| > 0
    }

    /** The requested ids that no stored coin has. */
    method GetMissingCoinIds(coinIds: set<int>) returns (missingIds: set<int>)
      ensures forall id :: id in missingIds <==> id in coinIds && !HasId(coins, id)
      ensures missingIds <= coinIds
      ensures coins == [] ==> missingIds == coinIds
    {
      var existingIds := set i | 0 <= i < |coins| && coins[i].id in coinIds :: coins[i].id;
      missingIds := coinIds;
      missingIds := missingIds - existingIds;
    }

    /**
     * The stored coins matching the given (symbol, name) pairs: one per matching
     * pair, in the order of the pairs.
     */
    method GetCoinsBySymbolNamePairs(pairs: seq<CoinSymbolNamePair>) returns (found: seq<CoinsEntity>)
      requires Valid()
      ensures found == MatchesInOrder(coins, pairs)
      ensures forall c :: c in found ==> c in coins && PairOf(c) in pairs
      ensures forall p {:trigger StoredPair(coins, p)} :: p in pairs && StoredPair(coins, p) ==>
        exists f :: f in found && PairOf(f) == p
      ensures |found| <= |pairs|
      ensures coins == [] ==> found == []
    {
      var probes := Probes(pairs);
      var filled := BulkRead(coins, probes);
      found := CoinsWhere(filled, IsStoredRow);
      BulkReadInOrder(coins, pairs);
      FoundAreStored(coins, pairs);
      StoredAreFound(coins, pairs);
      assert |found| > 0 ==> found[0] in found;
    }

    /** Adds the coins under fresh keys and returns them, numbered, in input order. */
    method InsertCoins(newCoins: seq<CoinsEntity>) returns (inserted: seq<CoinsEntity>)
      requires Valid()
      modifies this
      ensures Valid()
      ensures inserted == WithFreshIds(newCoins, old(nextId))
      ensures coins == old(coins) + inserted
      ensures forall i :: 0 <= i < |inserted| ==> !HasId(old(coins), inserted[i].id)
      ensures nextId == old(nextId) + |newCoins|
      ensures tradingPairs == old(tradingPairs) && exchanges == old(exchanges)
    {
      inserted := WithFreshIds(newCoins, nextId);
      assert forall i, j :: 0 <= i < |coins| && 0 <= j < |inserted| ==> coins[i].id < inserted[j].id;
      ghost var before := coins;
      coins := coins + inserted;
      nextId := nextId + |newCoins|;
      assert forall id :: HasId(before, id) ==> HasId(coins, id) by {
        forall id | HasId(before, id) ensures HasId(coins, id) {
          var i :| 0 <= i < |before| && before[i].id == id;
          assert coins[i] == before[i];
        }
      }
    }

    /**
     * Whether saving the batch would be refused, and for which key: a non-default
     * key that is not stored, or one that appears twice in the batch. When several
     * keys are at fault, which one is reported is not promised. Entities with the
     * default key are inserted and cannot make the save fail.
     */
    method CheckUpdateBatch(updates: seq<CoinsEntity>) returns (error: Option<StoreError>)
      ensures error.None? <==>
        DistinctKeys(updates) && forall k :: 0 <= k < |updates| && updates[k].id != 0 ==> HasId(coins, updates[k].id)
      ensures error.Some? ==> exists k :: 0 <= k < |updates| && updates[k].id != 0 && error.value.id == updates[k].id
    {
      var k := 0;
      while k < |updates|
        invariant 0 <= k <= |updates|
        invariant forall j :: 0 <= j < k && updates[j].id != 0 ==> HasId(coins, updates[j].id)
        invariant forall i, j :: 0 <= i < j < k && updates[i].id != 0 ==> updates[i].id != updates[j].id
      {
        if updates[k].id != 0 {
          if !CheckCoinExists(updates[k].id) {
            return Some(CoinNotFound(updates[k].id));
          }
          var j := 0;
          while j < k
            invariant 0 <= j <= k
            invariant forall i :: 0 <= i < j ==> updates[i].id != updates[k].id
          {
            if updates[j].id == updates[k].id {
              return Some(CoinTrackedTwice(updates[k].id));
            }
            j := j + 1;
          }
        }
        k := k + 1;
      }
      return None;
    }

    /**
     * Saves the batch as `UpdateRange` marks it. An entity with a stored key
     * overwrites that row; an entity with the default key 0 is inserted under the
     * next fresh key. A non-default key that is not stored, or that appears twice,
     * makes the save fail and leaves the store as it was. The batch comes back
     * with the keys the save assigned.
     */
    method UpdateCoins(updates: seq<CoinsEntity>) returns (r: Result<seq<CoinsEntity>, StoreError>)
      requires Valid()
      modifies this
      ensures Valid()
      ensures r.Failure? <==>
        || !DistinctKeys(updates)
        || exists k :: 0 <= k < |updates| && updates[k].id != 0 && !HasId(old(coins), updates[k].id)
      ensures r.Failure? ==> unchanged(this)
      ensures r.Success? ==> r.value == NumberNew(updates, old(nextId))
      ensures r.Success? ==> coins == ApplyUpdates(old(coins), updates) + WithFreshIds(CoinsWhere(updates, IsNewRow), old(nextId))
      ensures r.Success? ==> nextId == old(nextId) + |CoinsWhere(updates, IsNewRow)|
      ensures tradingPairs == old(tradingPairs) && exchanges == old(exchanges)
    {
      var error := CheckUpdateBatch(updates);
      if error.Some? {
        return Failure(error.value);
      }
      var added := WithFreshIds(CoinsWhere(updates, IsNewRow), nextId);
      SaveKeepsKeys(coins, updates, nextId);
      r := Success(NumberNew(updates, nextId));
      coins := ApplyUpdates(coins, updates) + added;
      nextId := nextId + |added|;
    }

    /** Deletes the coins that are neither the main nor the quote coin of any trading pair. */
    method DeleteCoinsNotReferencedByTradingPairs()
      requires Valid()
      modifies this
      ensures Valid()
      ensures coins == CoinsWhere(old(coins), ReferencedBy(old(tradingPairs)))
      ensures tradingPairs == old(tradingPairs) && exchanges == old(exchanges) && nextId == old(nextId)
    {
      SweepKeepsReferences(coins, tradingPairs, nextId);
      coins := CoinsWhere(coins, ReferencedBy(tradingPairs));
    }

    /** Removes every trading pair and every coin; the exchange rows stay. */
    method DeleteAllCoinsWithRelations()
      requires Valid()
      modifies this
      ensures Valid()
      ensures coins == [] && tradingPairs == []
      ensures exchanges == old(exchanges) && nextId == old(nextId)
    {
      tradingPairs := [];
      coins := [];
    }
  }

}
