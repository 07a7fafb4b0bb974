/**
 * The SQLite cache store.
 *
 * The three tables the program writes are held as sequences in rowid order:
 * the GeocodeQuery row at index i has Id i + 1 (rows are never deleted, so
 * the next insert gets Id |queries| + 1, which `lastrowid` reports), and the
 * GeocodeHit and GeocodeMiss rows refer to a query through its Id.  The
 * GeocodeMissType code table is fixed.  `FetchResult` is the read of the
 * left-joined rows; `Connection.StoreResult` is the write, specified by
 * `AfterStore`.
 */
module Db {
  import opened Wrappers
  import opened Providers

  /** A GeocodeHit row; every column but the query id may hold NULL. */
  datatype HitRow = HitRow(
    geocodeQueryId: nat,
    formattedAddress: Option<string>,
    latitude: Option<Coordinate>,
    longitude: Option<Coordinate>,
    streetNumber: Option<string>,
    postalCode: Option<string>,
    queryProvider: Option<string>)

  /** A GeocodeMiss row. */
  datatype MissRow = MissRow(geocodeQueryId: nat, missTypeId: nat)

  /** The GeocodeMissType table: the row at index j has Id j + 1 and this Code. */
  const MissTypeCodes: seq<string> :=
    ["RATE_LIMIT_EXCEEDED", "IMPRECISE_ADDRESS", "UNPARSEABLE_ADDRESS", "UNKNOWN_ERROR"]

  ghost predicate Distinct<T>(s: seq<T>) {
    forall i, j :: 0 <= i < j < |s| ==> s[i] != s[j]
  }

  /** The GeocodeQueryId column of the GeocodeHit table. */
  function HitQueryIds(hits: seq<HitRow>): (ids: seq<nat>) {
    seq(|hits|, k requires 0 <= k < |hits| => hits[k].geocodeQueryId)
  }

  /** The GeocodeQueryId column of the GeocodeMiss table. */
  function MissQueryIds(misses: seq<MissRow>): (ids: seq<nat>) {
    seq(|misses|, k requires 0 <= k < |misses| => misses[k].geocodeQueryId)
  }

  /** The state of the database. */
  datatype Tables = Tables(queries: seq<string>, hits: seq<HitRow>, misses: seq<MissRow>)
  {
    /**
     * What the database keeps true: raw addresses are unique, every outcome row
     * refers to an existing query, and every miss row to an existing miss type
     * (the foreign keys, enforced with `PRAGMA foreign_keys=ON`).
     */
    ghost predicate Valid() {
      && Distinct(queries)
      && (forall k :: 0 <= k < |hits| ==> 1 <= hits[k].geocodeQueryId <= |queries|)
      && (forall k :: 0 <= k < |misses| ==>
            1 <= misses[k].geocodeQueryId <= |queries| && 1 <= misses[k].missTypeId <= |MissTypeCodes|)
    }

    /** Every query has exactly one outcome row, counting both outcome tables. */
    ghost predicate Resolved() {
      forall id :: 1 <= id <= |queries| ==>
        multiset(HitQueryIds(hits))[id] + multiset(MissQueryIds(misses))[id] == 1
    }

    /** No query row for `rawAddress` has an outcome row yet. */
    ghost predicate NoOutcome(rawAddress: string) {
      forall i :: 0 <= i < |queries| && queries[i] == rawAddress ==>
        i + 1 !in HitQueryIds(hits) && i + 1 !in MissQueryIds(misses)
    }

    /** No query row for `rawAddress` has a miss row yet. */
    ghost predicate NoMissRow(rawAddress: string) {
      forall i :: 0 <= i < |queries| && queries[i] == rawAddress ==> i + 1 !in MissQueryIds(misses)
    }
  }

  /** The database a fresh migration leaves: no queries, no outcomes. */
  const Empty: Tables := Tables([], [], [])

  // ---------------------------------------------------------------------------
  // Reading rows.

  /**
   * The index of the first row, in rowid order, whose column equals `x`:
   * `WHERE column = ?` followed by `fetchone()`.  String comparison is exact.
   */
  function FirstMatch<T(==)>(column: seq<T>, x: T): (r: Option<nat>)
    ensures r.None? <==> x !in column
    ensures r.Some? ==> r.value < |column| && column[r.value] == x && x !in column[..r.value]
  {
    if |column| == 0 then None
    else if column[0] == x then Some(0)
    else match FirstMatch(column[1..], x)
      case None => None
      case Some(i) => Some(i + 1)
  }

  /** Row `k` is the first row whose column holds `x`. */
  ghost predicate IsFirst<T>(column: seq<T>, k: int, x: T) {
    0 <= k < |column| && column[k] == x && x !in column[..k]
  }

  /** The first matching row is the only row that is a first match. */
  lemma FirstMatchIsFirst<T>(column: seq<T>, x: T, k: int)
    requires IsFirst(column, k, x)
    ensures FirstMatch(column, x) == Some(k)
  {
  }

  /** Appending a row leaves the first match of any earlier value where it was. */
  lemma FirstMatchAppend<T>(column: seq<T>, y: T, x: T)
    ensures FirstMatch(column + [y], x) ==
      if x in column then FirstMatch(column, x)
      else if y == x then Some(|column|)
      else None
  {
    var s := column + [y];
    if x in column {
      var k := FirstMatch(column, x).value;
      assert s[..k] == column[..k];
      FirstMatchIsFirst(s, x, k);
    } else if y == x {
      assert s[..|column|] == column;
      FirstMatchIsFirst(s, x, |column|);
    } else {
      assert x !in s;
    }
  }

  /** In a table without duplicates, the first match of `column[i]` is row `i`. */
  lemma FirstMatchDistinct<T>(column: seq<T>, i: int)
    requires Distinct(column) && 0 <= i < |column|
    ensures FirstMatch(column, column[i]) == Some(i)
  {
    assert column[i] !in column[..i] by {
      forall j | 0 <= j < i ensures column[..i][j] != column[i] {
      }
    }
    FirstMatchIsFirst(column, column[i], i);
  }

  /** Every miss code has a row in the GeocodeMissType table. */
  lemma MissTypeCodesComplete(miss: GeocodeMiss)
    ensures miss.Value() in MissTypeCodes
  {
    match miss
    case RateLimitExceeded => assert MissTypeCodes[0] == miss.Value();
    case ImpreciseAddress => assert MissTypeCodes[1] == miss.Value();
    case UnparseableAddress => assert MissTypeCodes[2] == miss.Value();
    case UnknownError => assert MissTypeCodes[3] == miss.Value();
  }

  /** Every code of the GeocodeMissType table names a miss. */
  lemma MissTypeCodesKnown(j: int)
    requires 0 <= j < |MissTypeCodes|
    ensures GeocodeMiss.FromValue(MissTypeCodes[j]).Some?
  {
  }

  /** `(SELECT Id FROM GeocodeMissType gmt WHERE gmt.Code = ?)` for the code of `miss`. */
  function MissTypeId(miss: GeocodeMiss): (id: nat)
    ensures 1 <= id <= |MissTypeCodes| && MissTypeCodes[id - 1] == miss.Value()
  {
    MissTypeCodesComplete(miss);
    FirstMatch(MissTypeCodes, miss.Value()).value + 1
  }

  /** `GeocodeMiss(MissCode)` where MissCode is the Code of the miss type with the given Id. */
  function MissOfType(missTypeId: nat): (miss: GeocodeMiss)
    requires 1 <= missTypeId <= |MissTypeCodes|
    ensures miss.Value() == MissTypeCodes[missTypeId - 1]
  {
    MissTypeCodesKnown(missTypeId - 1);
    GeocodeMiss.FromValue(MissTypeCodes[missTypeId - 1]).value
  }

  /** The hit the program builds from the GeocodeHit columns of a joined row. */
  function HitOfRow(row: HitRow): (hit: GeocodeHit) {
    GeocodeHit(row.latitude, row.longitude, row.formattedAddress, row.streetNumber, row.postalCode, row.queryProvider)
  }

  /** The hit built from a joined row whose GeocodeHit columns are all NULL. */
  const NullHit: GeocodeHit := GeocodeHit(None, None, None, None, None, None)

  /**
   * `fetch_result`: the first row of the query row for `rawAddress` left-joined
   * with its hit row, its miss row and the miss row's type.  No query row: no
   * result.  A miss row: that miss.  Otherwise a hit from the hit columns,
   * which are all NULL when the query has no hit row either.
   */
  function FetchResult(db: Tables, rawAddress: string): (r: Option<GeocodeResult>)
    requires db.Valid()
    ensures r.None? <==> rawAddress !in db.queries
  {
    match FirstMatch(db.queries, rawAddress)
    case None => None
    case Some(i) => Some(JoinedResult(db, i + 1))
  }

  /** The result read from the first joined row of the query with Id `queryId`. */
  function JoinedResult(db: Tables, queryId: nat): (result: GeocodeResult)
    requires db.Valid()
  {
    match FirstMatch(MissQueryIds(db.misses), queryId)
    case Some(k) => Miss(MissOfType(db.misses[k].missTypeId))
    case None =>
      match FirstMatch(HitQueryIds(db.hits), queryId)
      case Some(k) => Hit(HitOfRow(db.hits[k]))
      case None => Hit(NullHit)
  }

  /** The address of query row `i` is fetched as a miss exactly when a miss row refers to the query. */
  lemma FetchResultKind(db: Tables, i: int)
    requires db.Valid() && 0 <= i < |db.queries|
    ensures var r := FetchResult(db, db.queries[i]);
      r.Some? && (r.value.Miss? <==> i + 1 in MissQueryIds(db.misses))
  {
    FirstMatchDistinct(db.queries, i);
  }

  /** The first miss row `k` of query row `i` decides the miss code its address is fetched with. */
  lemma FetchResultMissRow(db: Tables, i: int, k: int)
    requires db.Valid() && 0 <= i < |db.queries| && IsFirst(MissQueryIds(db.misses), k, i + 1)
    ensures FetchResult(db, db.queries[i]) == Some(Miss(MissOfType(db.misses[k].missTypeId)))
    ensures MissOfType(db.misses[k].missTypeId).Value() == MissTypeCodes[db.misses[k].missTypeId - 1]
  {
    FirstMatchDistinct(db.queries, i);
    FirstMatchIsFirst(MissQueryIds(db.misses), i + 1, k);
  }

  /** Without a miss row, the first hit row `k` of query row `i` is the hit its address is fetched as. */
  lemma FetchResultHitRow(db: Tables, i: int, k: int)
    requires db.Valid() && 0 <= i < |db.queries|
    requires i + 1 !in MissQueryIds(db.misses) && IsFirst(HitQueryIds(db.hits), k, i + 1)
    ensures FetchResult(db, db.queries[i]) == Some(Hit(HitOfRow(db.hits[k])))
  {
    FirstMatchDistinct(db.queries, i);
    FirstMatchIsFirst(HitQueryIds(db.hits), i + 1, k);
  }

  /** A query row with no outcome row at all is fetched as a hit whose fields are all NULL. */
  lemma FetchResultNoOutcome(db: Tables, i: int)
    requires db.Valid() && 0 <= i < |db.queries|
    requires i + 1 !in MissQueryIds(db.misses) && i + 1 !in HitQueryIds(db.hits)
    ensures FetchResult(db, db.queries[i]) == Some(Hit(NullHit))
  {
    FirstMatchDistinct(db.queries, i);
  }

  // ---------------------------------------------------------------------------
  // Writing rows.

  /** The GeocodeHit row `insert_hit` writes for `hit` under query `queryId`. */
  function HitRowOf(queryId: nat, hit: GeocodeHit): (row: HitRow) {
    HitRow(queryId, hit.displayAddress, hit.latitude, hit.longitude, hit.streetNumber, hit.postalCode, hit.provider)
  }

  /**
   * The tables after `store_result(rawAddress, result)`: the query row for
   * the address is found, or inserted with the next Id, and then exactly one
   * outcome row referring to it is appended, to GeocodeMiss or to GeocodeHit
   * as `result.is_miss()` says.  Nothing checks for an earlier outcome row.
   */
  function AfterStore(db: Tables, rawAddress: string, result: GeocodeResult): (after: Tables)
    ensures after.queries == if rawAddress in db.queries then db.queries else db.queries + [rawAddress]
    ensures db.hits <= after.hits && db.misses <= after.misses
    ensures |after.hits| + |after.misses| == |db.hits| + |db.misses| + 1
    ensures result.IsMiss() <==> |after.misses| == |db.misses| + 1
  {
    var queryRow := FirstMatch(db.queries, rawAddress);
    var queries := if queryRow.None? then db.queries + [rawAddress] else db.queries;
    var queryId := if queryRow.None? then |db.queries| + 1 else queryRow.value + 1;
    if result.IsMiss() then
      Tables(queries, db.hits, db.misses + [MissRow(queryId, MissTypeId(result.miss))])
    else
      Tables(queries, db.hits + [HitRowOf(queryId, result.hit)], db.misses)
  }

  /** The Id of the query row for `rawAddress` after a store. */
  function StoredQueryId(db: Tables, rawAddress: string): (queryId: nat) {
    match FirstMatch(db.queries, rawAddress)
    case None => |db.queries| + 1
    case Some(i) => i + 1
  }

  /**
   * A store reuses the query row of a known address and gives a new address
   * the next Id; the outcome row it appends refers to that query row.
   */
  lemma StoreQueryRow(db: Tables, rawAddress: string, result: GeocodeResult)
    requires db.Valid()
    ensures var after := AfterStore(db, rawAddress, result);
      var id := StoredQueryId(db, rawAddress);
      && FirstMatch(after.queries, rawAddress) == Some(id - 1)
      && (rawAddress in db.queries ==> db.queries[id - 1] == rawAddress)
      && (rawAddress !in db.queries ==> id == |db.queries| + 1)
      && (result.Miss? ==> after.misses[|after.misses| - 1] == MissRow(id, MissTypeId(result.miss)))
      && (result.Hit? ==> after.hits[|after.hits| - 1] == HitRowOf(id, result.hit))
  {
    FirstMatchAppend(db.queries, rawAddress, rawAddress);
  }

  /** A store keeps the database valid. */
  lemma StoreKeepsValid(db: Tables, rawAddress: string, result: GeocodeResult)
    requires db.Valid()
    ensures AfterStore(db, rawAddress, result).Valid()
  {
    var after := AfterStore(db, rawAddress, result);
    if rawAddress !in db.queries {
      forall i, j | 0 <= i < j < |after.queries| ensures after.queries[i] != after.queries[j] {
        if j == |db.queries| {
          assert after.queries[j] == rawAddress;
          assert after.queries[i] == db.queries[i];
        }
      }
    }
  }

  lemma HitQueryIdsAppend(hits: seq<HitRow>, row: HitRow)
    ensures HitQueryIds(hits + [row]) == HitQueryIds(hits) + [row.geocodeQueryId]
  {
  }

  lemma MissQueryIdsAppend(misses: seq<MissRow>, row: MissRow)
    ensures MissQueryIds(misses + [row]) == MissQueryIds(misses) + [row.geocodeQueryId]
  {
  }

  /** The Id the next query row gets is referred to by no outcome row. */
  lemma NextIdUnused(db: Tables)
    requires db.Valid()
    ensures |db.queries| + 1 !in HitQueryIds(db.hits)
    ensures |db.queries| + 1 !in MissQueryIds(db.misses)
  {
  }

  /** The outcome row a store appends is the query's first miss or hit row when it had none before. */
  lemma StoredRowIsFirst(db: Tables, rawAddress: string, result: GeocodeResult)
    requires db.Valid()
    ensures var after := AfterStore(db, rawAddress, result);
      var id := StoredQueryId(db, rawAddress);
      && (result.Miss? ==> MissQueryIds(after.misses) == MissQueryIds(db.misses) + [id] && after.hits == db.hits)
      && (result.Hit? ==> HitQueryIds(after.hits) == HitQueryIds(db.hits) + [id] && after.misses == db.misses)
      && (rawAddress !in db.queries ==> id !in HitQueryIds(db.hits) && id !in MissQueryIds(db.misses))
      && (rawAddress in db.queries ==> db.queries[id - 1] == rawAddress)
  {
    StoreQueryRow(db, rawAddress, result);
    NextIdUnused(db);
    var after := AfterStore(db, rawAddress, result);
    if result.Miss? {
      assert after.misses == db.misses + [after.misses[|db.misses|]];
      MissQueryIdsAppend(db.misses, after.misses[|db.misses|]);
    } else {
      assert after.hits == db.hits + [after.hits[|db.hits|]];
      HitQueryIdsAppend(db.hits, after.hits[|db.hits|]);
    }
  }

  /** Storing a hit for an address with no outcome row reads back that very hit. */
  lemma StoreRoundTripHit(db: Tables, rawAddress: string, hit: GeocodeHit)
    requires db.Valid() && db.NoOutcome(rawAddress)
    ensures AfterStore(db, rawAddress, Hit(hit)).Valid()
    ensures FetchResult(AfterStore(db, rawAddress, Hit(hit)), rawAddress) == Some(Hit(hit))
  {
    var after := AfterStore(db, rawAddress, Hit(hit));
    var id := StoredQueryId(db, rawAddress);
    StoreKeepsValid(db, rawAddress, Hit(hit));
    StoreQueryRow(db, rawAddress, Hit(hit));
    StoredRowIsFirst(db, rawAddress, Hit(hit));
    assert id !in HitQueryIds(db.hits) && id !in MissQueryIds(db.misses);
    FirstMatchAppend(HitQueryIds(db.hits), id, id);
    assert FirstMatch(HitQueryIds(after.hits), id) == Some(|db.hits|);
    assert FirstMatch(MissQueryIds(after.misses), id).None?;
  }

  /** Storing a miss for an address with no miss row reads back that very miss. */
  lemma StoreRoundTripMiss(db: Tables, rawAddress: string, miss: GeocodeMiss)
    requires db.Valid() && db.NoMissRow(rawAddress)
    ensures AfterStore(db, rawAddress, Miss(miss)).Valid()
    ensures FetchResult(AfterStore(db, rawAddress, Miss(miss)), rawAddress) == Some(Miss(miss))
  {
    var after := AfterStore(db, rawAddress, Miss(miss));
    var id := StoredQueryId(db, rawAddress);
    StoreKeepsValid(db, rawAddress, Miss(miss));
    StoreQueryRow(db, rawAddress, Miss(miss));
    StoredRowIsFirst(db, rawAddress, Miss(miss));
    assert id !in MissQueryIds(db.misses);
    FirstMatchAppend(MissQueryIds(db.misses), id, id);
    assert FirstMatch(MissQueryIds(after.misses), id) == Some(|db.misses|);
    assert after.misses[|db.misses|].missTypeId == MissTypeId(miss);
    FromValueOfValue(miss);
  }

  /** A store for one address changes nothing that any other address reads. */
  lemma StoreFrame(db: Tables, rawAddress: string, result: GeocodeResult, other: string)
    requires db.Valid() && other != rawAddress
    ensures AfterStore(db, rawAddress, result).Valid()
    ensures FetchResult(AfterStore(db, rawAddress, result), other) == FetchResult(db, other)
  {
    var after := AfterStore(db, rawAddress, result);
    StoreKeepsValid(db, rawAddress, result);
    StoreKeepsOtherQueries(db, rawAddress, result, other);
    var found := FirstMatch(db.queries, other);
    if found.Some? {
      var i := found.value;
      StoredQueryIdOfOther(db, rawAddress, i);
      StoreKeepsJoin(db, rawAddress, result, i + 1);
    }
  }

  /** A store leaves the query row any other address matches where it was. */
  lemma StoreKeepsOtherQueries(db: Tables, rawAddress: string, result: GeocodeResult, other: string)
    requires other != rawAddress
    ensures FirstMatch(AfterStore(db, rawAddress, result).queries, other) == FirstMatch(db.queries, other)
  {
    if rawAddress !in db.queries {
      FirstMatchAppend(db.queries, rawAddress, other);
    }
  }

  /** A query row holding another address does not have the Id a store writes under. */
  lemma StoredQueryIdOfOther(db: Tables, rawAddress: string, i: int)
    requires 0 <= i < |db.queries| && db.queries[i] != rawAddress
    ensures i + 1 != StoredQueryId(db, rawAddress)
  {
  }

  /** The joined row of any query other than the stored one is unchanged by a store. */
  lemma StoreKeepsJoin(db: Tables, rawAddress: string, result: GeocodeResult, queryId: nat)
    requires db.Valid() && queryId != StoredQueryId(db, rawAddress)
    ensures AfterStore(db, rawAddress, result).Valid()
    ensures JoinedResult(AfterStore(db, rawAddress, result), queryId) == JoinedResult(db, queryId)
  {
    var after := AfterStore(db, rawAddress, result);
    var id := StoredQueryId(db, rawAddress);
    StoreKeepsValid(db, rawAddress, result);
    StoredRowIsFirst(db, rawAddress, result);
    if result.Miss? {
      FirstMatchAppend(MissQueryIds(db.misses), id, queryId);
    } else {
      FirstMatchAppend(HitQueryIds(db.hits), id, queryId);
    }
    var missRow := FirstMatch(MissQueryIds(db.misses), queryId);
    var hitRow := FirstMatch(HitQueryIds(db.hits), queryId);
    assert FirstMatch(MissQueryIds(after.misses), queryId) == missRow;
    assert FirstMatch(HitQueryIds(after.hits), queryId) == hitRow;
    assert missRow.Some? ==> after.misses[missRow.value] == db.misses[missRow.value];
    assert hitRow.Some? ==> after.hits[hitRow.value] == db.hits[hitRow.value];
  }

  /**
   * Storing the outcome of a new address keeps every query resolved exactly
   * once: the new query row gets exactly one outcome row, the others keep theirs.
   */
  lemma StoreKeepsResolved(db: Tables, rawAddress: string, result: GeocodeResult)
    requires db.Valid() && db.Resolved() && rawAddress !in db.queries
    ensures AfterStore(db, rawAddress, result).Resolved()
  {
    var after := AfterStore(db, rawAddress, result);
    var id := |db.queries| + 1;
    assert StoredQueryId(db, rawAddress) == id;
    StoredRowIsFirst(db, rawAddress, result);
    var hitsBefore, missesBefore := multiset(HitQueryIds(db.hits)), multiset(MissQueryIds(db.misses));
    var hitsAfter, missesAfter := multiset(HitQueryIds(after.hits)), multiset(MissQueryIds(after.misses));
    assert hitsBefore[id] == 0 && missesBefore[id] == 0;
    assert hitsAfter + missesAfter == hitsBefore + missesBefore + multiset{id} by {
      if result.Miss? {
        assert missesAfter == missesBefore + multiset{id};
      } else {
        assert hitsAfter == hitsBefore + multiset{id};
      }
    }
    assert |after.queries| == id;
    forall q | 1 <= q <= id
      ensures hitsAfter[q] + missesAfter[q] == 1
    {
      assert (hitsAfter + missesAfter)[q] == (hitsBefore + missesBefore + multiset{id})[q];
    }
  }

  /** The database connection: the tables the program changes row by row. */
  class Connection {
    var queries: seq<string>
    var hits: seq<HitRow>
    var misses: seq<MissRow>

    /** The current contents of the tables. */
    function State(): (tables: Tables)
      reads this
    {
      Tables(queries, hits, misses)
    }

    /** A connection to a freshly migrated database. */
    constructor ()
      ensures State() == Empty
      ensures State().Valid() && State().Resolved()
    {
      queries, hits, misses := [], [], [];
    }

    /**
     * `store_result`: look the address up, insert a query row when there is
     * none and take its `lastrowid`, then insert one outcome row.
     */
    method StoreResult(rawAddress: string, result: GeocodeResult)
      requires State().Valid()
      modifies this
      ensures State() == AfterStore(old(State()), rawAddress, result)
      ensures State().Valid()
    {
      StoreKeepsValid(State(), rawAddress, result);
      var queryRow := FirstMatch(queries, rawAddress);
      var queryId: nat;
      if queryRow.None? {
        queries := queries + [rawAddress];
        queryId := |queries|;
      } else {
        queryId := queryRow.value + 1;
      }

      if result.IsMiss() {
        misses := misses + [MissRow(queryId, MissTypeId(result.miss))];
      } else {
        hits := hits + [HitRowOf(queryId, result.hit)];
      }
    }
  }
}
