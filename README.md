# geocoding-cache in Dafny

A model of the cache-aside geocoding lookup of `geocoding-cache`. The server answers "where is this
address?" from a SQLite cache. It calls a paid, rate-limited geocoding provider only for
addresses it has never seen. It also remembers failed lookups, so that a failing address is not
sent to the provider again.

The model has three parts, one module per source file:

- `Providers` (`providers.dfy`) is the result model. A `GeocodeResult` is either a `GeocodeHit`
  (six nullable fields) or a `GeocodeMiss` (one of four codes), and each variant has `IsMiss`.
  The module also holds the classifier of the Google provider. `Google` is a method over an
  already parsed response. It applies the status ladder, then the location-type check, then a loop
  over the address components that keeps the last street number and the last postal code.
- `Db` (`db.dfy`) is the cache store. `Tables` is the database as a value: GeocodeQuery,
  GeocodeHit and GeocodeMiss in rowid order, with the fixed GeocodeMissType code table beside them.
  `FetchResult` is the read of the left-joined rows. `AfterStore` specifies the effect of
  `store_result`. The class `Connection` holds the tables as fields, and its method `StoreResult`
  carries out the write step by step: find, or insert and take `lastrowid`, then insert one outcome
  row. Lemmas prove that stores keep the tables valid; that fetch returns what a store wrote for an
  address that had no outcome row (for a miss: no miss row); that other addresses are unaffected; and
  that storing for an unseen address keeps every query resolved exactly once. A second hit stored for
  an address is not what fetch returns: the first hit row stays the one read.
- `Server` (`server.dfy`) is the `hello` view. `Hello` takes the connection and the provider (a
  function from address to result, or to an exception) as parameters. It returns the JSON body and
  the HTTP code. A ghost out-parameter records which addresses the provider was asked about.
  `LookupTwice` and three scenario methods restate the test suite's cases.

`Wrappers` (`wrappers.dfy`) holds the `Option` type, used for Python's `None` and SQL's `NULL`.

Behaviours of the code that are easy to misread, which the model follows as written:

- A GeocodeQuery row with no outcome row is fetched as a hit whose fields are all `NULL`; it is
  not reported as missing (`geocoding_cache/db.py:14`, `geocoding_cache/db.py:70-78`). `FetchResultNoOutcome` states it.
- `store_result` does not refuse a second outcome row for a query that already has one. `AfterStore`
  appends it anyway, and `FetchResult` then reads the first row in rowid order. Under `Hello` this
  never happens: the store is only called for an address with no query row, which
  `StoreKeepsResolved` and `Hello`'s last postcondition capture.
- An empty `address` parameter is accepted like any other string. Only an absent parameter is a
  bad request.
- A provider that raises is not persisted (the exception escapes before `store_result`). A provider
  that *returns* `UnknownError` is persisted, like any other miss.

## Model

| member | source | states |
|---|---|---|
| `Providers.MissIsMiss` | geocoding_cache/providers.py:15-16 | every miss code reports `is_miss()` true |
| `Providers.HitIsNotMiss` | geocoding_cache/providers.py:27-28 | every hit, whatever its fields, reports `is_miss()` false |
| `Providers.IsMissDiscriminates` | geocoding_cache/providers.py:31 | on the union, `is_miss()` holds exactly for the miss variant |
| `Providers.MissCodesExact` | geocoding_cache/providers.py:9-13 | the codes are exactly RATE_LIMIT_EXCEEDED, IMPRECISE_ADDRESS, UNPARSEABLE_ADDRESS, UNKNOWN_ERROR, pairwise distinct, and `FromValue` inverts `Value` on them and only on them |
| `Providers.GeocodeMiss.FromValue` | geocoding_cache/db.py:80 | `GeocodeMiss(code)` gives the member whose value is `code`, and nothing for a string that no member has |
| `Providers.LastLongName` | geocoding_cache/providers.py:79-85 | absent exactly when no component carries the type; otherwise the long name of a component with the type after which no component has it (the last one wins) |
| `Providers.Google` | geocoding_cache/providers.py:64-97 | OVER_QUERY_LIMIT gives RateLimitExceeded, ZERO_RESULTS gives UnparseableAddress, any status besides OK and those two gives UnknownError, whatever the results; OK with no results raises; OK whose first result is not rooftop or lacks a street number or postal code gives ImpreciseAddress; otherwise a hit from the first result's lat, lng, formatted address, last street number and last postal code, provider "google" (each outcome stated as an if-and-only-if) |
| `Db.FirstMatch` | geocoding_cache/db.py:26-29 | the first row in rowid order whose column equals the key by exact comparison, and none exactly when no row does |
| `Db.MissTypeId` | geocoding_cache/db.py:52-55 | the subquery finds, for every miss, the Id of the GeocodeMissType row whose Code is that miss's value |
| `Db.MissOfType` | geocoding_cache/db.py:80 | the miss rebuilt from a miss type Id has that type's Code as its value |
| `Db.FetchResult` | geocoding_cache/db.py:6-80 | no result exactly when no GeocodeQuery row has the address, byte for byte |
| `Db.FetchResultKind` | geocoding_cache/db.py:14-20 | an address with a query row is always fetched, and as a miss exactly when some miss row refers to its query |
| `Db.FetchResultMissRow` | geocoding_cache/db.py:19-22 | a query's first miss row decides the miss it is fetched as, whose code is that row's miss type Code |
| `Db.FetchResultHitRow` | geocoding_cache/db.py:70-78 | without a miss row, a query is fetched as the hit built field by field from its first hit row |
| `Db.FetchResultNoOutcome` | geocoding_cache/db.py:70-78 | a query with neither a miss row nor a hit row is fetched as a hit whose fields are all NULL |
| `Db.AfterStore` | geocoding_cache/db.py:83-111 | a store keeps every existing row, adds a query row only for an unseen address, adds exactly one outcome row, and adds it to GeocodeMiss exactly when `is_miss()` |
| `Db.StoreQueryRow` | geocoding_cache/db.py:84-93 | a known address keeps its query Id; an unseen one gets Id one past the last row; the appended outcome row refers to that Id |
| `Db.StoreKeepsValid` | geocoding_cache/db.py:83-111 | a store keeps addresses unique and every outcome row's query and miss-type references valid |
| `Db.StoreRoundTripHit` | geocoding_cache/db.py:98-109 | after storing a hit for an address without an outcome row, fetching the address gives that hit back field by field |
| `Db.StoreRoundTripMiss` | geocoding_cache/db.py:95-96 | after storing a miss for an address without a miss row, fetching it gives the same miss code |
| `Db.StoreFrame` | geocoding_cache/db.py:95-109 | a store changes nothing that a fetch of any other address reads |
| `Db.StoreKeepsResolved` | geocoding_cache/db.py:88-109 | storing for an unseen address keeps every query with exactly one outcome row across both outcome tables |
| `Db.Connection.constructor` | tests/test_geocoding_cache.py:26-32 | a freshly migrated database has no rows, is valid and resolved |
| `Db.Connection.StoreResult` | geocoding_cache/db.py:83-111 | the step-by-step write leaves exactly the tables `AfterStore` describes, and valid |
| `Server.CacheTypeWireValues` | geocoding_cache/server.py:22-24 | the cache types go on the wire as exactly "MISS" and "HIT", distinct |
| `Server.Render` | geocoding_cache/server.py:67-78 | a miss gives status = its code and no result; a hit gives status "OK" and its fields; the cache type is passed through |
| `Server.RenderRoundTrip` | geocoding_cache/server.py:67-78 | the body determines the result: reading a rendered body back gives the result it came from |
| `Server.Hello` | geocoding_cache/server.py:49-78 | an absent address gives BAD_REQUEST/400 with no store access and no provider call; a cached address gives HIT with the stored result, no call, no write; an unseen one calls the provider once with the raw address, stores its result (fetched back equal) and gives MISS, or stores nothing when the provider raises; other addresses read the same; every query stays resolved once |
| `Server.LookupTwice` | tests/test_geocoding_cache.py:45-98 | two lookups of an unseen address: the provider is called once, the first reports MISS and the second HIT, with the same status and result; the store ends valid, holding exactly what one store of the provider's result leaves, so the second request wrote nothing |

## Left out

- The HTTP requests of `google`, `geocod`, `mapbox` and `nominatim` (`geocoding_cache/providers.py:34-62`)
  are left out as I/O. The other three providers only return raw bytes. `Google` takes the parsed
  response instead, and `Hello` takes the provider as an arbitrary function.
- JSON decoding is left out: a response lacking a key raises `KeyError` in the program. The model's
  response record always has every field. The only exception it models is `results[0]` on an
  empty list.
- The database snapshot and upload job (`geocoding_cache/backup.py`) is I/O with no logic.
- The Flask plumbing is left out: routing, the `g`-cached connection and provider, `teardown_appcontext`,
  `connection.commit()` and `PRAGMA foreign_keys=ON`. The connection is one in-memory state passed to
  `Hello`. The foreign keys it enables are the references `Tables.Valid` keeps.
- Latitude and longitude are floats in the program. They are `real` here and are only copied and
  compared.
- The schema migrations are not part of this model. The GeocodeMissType rows are taken to be the four
  codes with Ids 1 to 4. SQLite's column type affinity is not modelled: a value is read back exactly as
  it was written.
- Row ids: a GeocodeQuery row's Id is its position plus one. This holds because rows are never deleted,
  so `lastrowid` is the new row count.
- When a query has several outcome rows, `fetchone()` returns whichever joined row SQLite produces
  first, in an order SQLite does not specify. The model reads the first miss row and the first hit
  row in rowid order.
- Concurrency, race recovery and a uniqueness constraint on outcome rows are left out: the program
  has none of them.
- A foreign-key failure on an unknown miss code cannot arise, because the codes form a closed type.
- The provider is a function, so a provider whose answers change between calls is not modelled.
- A repeated `address` parameter is not modelled. Flask would take the first one.
