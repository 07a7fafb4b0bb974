/**
 * The lookup view of the Flask application: the cache-aside protocol.
 *
 * `Hello` reads the cache; on a hit it answers from the store, and on a miss
 * it asks the provider, stores what the provider returned and answers with
 * it.  The reply reports whether this request was served from the store
 * (`HIT`) or by the provider (`MISS`), which is a different thing from
 * whether geocoding succeeded (the result's own Hit or Miss).
 *
 * The connection and the provider, which the program takes from the request
 * context, are parameters here.
 */
module Server {
  import opened Wrappers
  import Providers
  import Db

  /** Whether a request was served from the store or by the provider. */
  datatype CacheType = Miss | Hit
  {
    /** The value sent in the `cache_type` field of the reply. */
    function Value(): (wire: string) {
      match this
      case Miss => "MISS"
      case Hit => "HIT"
    }
  }

  /** The two cache types go on the wire as the two distinct strings "MISS" and "HIT". */
  lemma CacheTypeWireValues()
    ensures forall c: CacheType :: c.Value() in {"MISS", "HIT"}
    ensures forall c: CacheType, d: CacheType :: c.Value() == d.Value() ==> c == d
    ensures Miss.Value() == "MISS" && Hit.Value() == "HIT"
  {
  }

  /** The JSON body of a reply: `status`, `result` and `cache_type`. */
  datatype Body = Body(status: string, result: Option<Providers.GeocodeHit>, cacheType: Option<CacheType>)

  /**
   * An HTTP reply: a JSON body with its status code, or the server error
   * Flask sends when an exception escapes the view.
   */
  datatype Reply = Json(body: Body, code: nat) | InternalServerError

  /** A miss code never reads as the status of a hit, nor as that of a bad request. */
  lemma MissCodeIsNotOk(m: Providers.GeocodeMiss)
    ensures m.Value() != "OK" && m.Value() != "BAD_REQUEST"
  {
  }

  /**
   * The body for a result: a miss sends its code as the status and no
   * result; a hit sends "OK" and the hit's fields (`_asdict()`).
   */
  function Render(result: Providers.GeocodeResult, cacheType: CacheType): (body: Body)
    ensures body.cacheType == Some(cacheType)
    ensures body.status == "OK" <==> result.Hit?
    ensures body.result.Some? <==> result.Hit?
    ensures result.Miss? ==> body.status == result.miss.Value()
    ensures result.Hit? ==> body.result == Some(result.hit)
  {
    Providers.IsMissDiscriminates(result);
    if result.IsMiss() then
      MissCodeIsNotOk(result.miss);
      Body(result.miss.Value(), None, Some(cacheType))
    else
      Body("OK", Some(result.hit), Some(cacheType))
  }

  /** What a client reads from a body: the result it reports, when the status is "OK" or a miss code. */
  function ResultOf(body: Body): (result: Option<Providers.GeocodeResult>)
    ensures result.Some? && result.value.Miss? ==> result.value.miss.Value() == body.status
    ensures result.Some? && result.value.Hit? ==> body.status == "OK" && body.result == Some(result.value.hit)
  {
    if body.status == "OK" then
      match body.result
      case Some(hit) => Some(Providers.Hit(hit))
      case None => None
    else
      match Providers.GeocodeMiss.FromValue(body.status)
      case Some(m) => Some(Providers.Miss(m))
      case None => None
  }

  /** The body loses nothing: a client reads back exactly the result it was rendered from. */
  lemma RenderRoundTrip(result: Providers.GeocodeResult, cacheType: CacheType)
    ensures ResultOf(Render(result, cacheType)) == Some(result)
  {
    if result.Miss? {
      MissCodeIsNotOk(result.miss);
      Providers.MissCodesExact();
    }
  }

  /** The reply to a request without an `address` parameter. */
  const BadRequest: Reply := Json(Body("BAD_REQUEST", None, None), 400)

  /**
   * The view `hello`.  `address` is the `address` query parameter, absent or
   * present (an empty string is present).  `provider` stands for the
   * configured provider; `asked` records the addresses it was called with.
   * The provider is a function, so a call leaves no trace of its own: `asked`
   * is extended by the body next to the one place that applies `provider`,
   * and the claims about calls rest on that pairing.
   */
  method Hello(db: Db.Connection, address: Option<string>, provider: string -> Providers.ProviderReply)
    returns (reply: Reply, ghost asked: seq<string>)
    requires db.State().Valid()
    modifies db
    ensures db.State().Valid()
    // no address: a bad request, with neither the store nor the provider touched
    ensures address.None? ==> reply == BadRequest && asked == [] && db.State() == old(db.State())
    // served from the store: no provider call, no write
    ensures address.Some? && Db.FetchResult(old(db.State()), address.value).Some? ==>
      && asked == []
      && db.State() == old(db.State())
      && reply == Json(Render(Db.FetchResult(old(db.State()), address.value).value, Hit), 200)
    // served by the provider: one call with the raw address, then its result is stored
    ensures address.Some? && Db.FetchResult(old(db.State()), address.value).None? ==>
      && asked == [address.value]
      && match provider(address.value)
         case Raised => reply == InternalServerError && db.State() == old(db.State())
         case Returned(result) =>
           && reply == Json(Render(result, Miss), 200)
           && db.State() == Db.AfterStore(old(db.State()), address.value, result)
           && Db.FetchResult(db.State(), address.value) == Some(result)
    // what any other address reads is unchanged
    ensures forall other :: (address.None? || other != address.value) ==>
      Db.FetchResult(db.State(), other) == Db.FetchResult(old(db.State()), other)
    // every query stays resolved exactly once
    ensures old(db.State().Resolved()) ==> db.State().Resolved()
  {
    asked := [];
    if address.None? {
      return BadRequest, asked;
    }
    var rawAddress := address.value;

    var geocodeResult := Db.FetchResult(db.State(), rawAddress);
    var cacheType := Hit;
    var result: Providers.GeocodeResult;
    if geocodeResult.None? {
      cacheType := Miss;
      asked := asked + [rawAddress];
      var answer := provider(rawAddress);
      if answer.Raised? {
        return InternalServerError, asked;
      }
      result := answer.result;
      ghost var before := db.State();
      db.StoreResult(rawAddress, result);
      if result.Miss? {
        Db.StoreRoundTripMiss(before, rawAddress, result.miss);
      } else {
        Db.StoreRoundTripHit(before, rawAddress, result.hit);
      }
      forall other | other != rawAddress
        ensures Db.FetchResult(db.State(), other) == Db.FetchResult(before, other)
      {
        Db.StoreFrame(before, rawAddress, result, other);
      }
      if before.Resolved() {
        Db.StoreKeepsResolved(before, rawAddress, result);
      }
    } else {
      result := geocodeResult.value;
    }

    reply := Json(Render(result, cacheType), 200);
  }

  /**
   * Two requests in a row for an address the store has not seen: the first
   * is served by the provider and the second from the store, with the same
   * status and result.  If the provider raises, neither request stores
   * anything and both fail.
   */
  method LookupTwice(db: Db.Connection, rawAddress: string, provider: string -> Providers.ProviderReply)
    returns (first: Reply, second: Reply, ghost asked: seq<string>)
    requires db.State().Valid() && rawAddress !in db.State().queries
    modifies db
    ensures provider(rawAddress).Returned? ==>
      && asked == [rawAddress]
      && first == Json(Render(provider(rawAddress).result, Miss), 200)
      && second == Json(Render(provider(rawAddress).result, Hit), 200)
      && first.body.status == second.body.status
      && first.body.result == second.body.result
    ensures db.State().Valid()
    // the first request stores the provider's result and the second writes nothing
    ensures provider(rawAddress).Returned? ==>
      db.State() == Db.AfterStore(old(db.State()), rawAddress, provider(rawAddress).result)
    ensures provider(rawAddress).Raised? ==>
      && asked == [rawAddress, rawAddress]
      && first == InternalServerError && second == InternalServerError
      && db.State() == old(db.State())
  {
    ghost var asked1, asked2;
    first, asked1 := Hello(db, Some(rawAddress), provider);
    second, asked2 := Hello(db, Some(rawAddress), provider);
    asked := asked1 + asked2;
  }

  /** A request without an address: a bad request (the first test of the test suite). */
  method BadRequestScenario(provider: string -> Providers.ProviderReply) {
    var db := new Db.Connection();
    var reply, asked := Hello(db, None, provider);
    assert reply.code == 400 && reply.body.status == "BAD_REQUEST";
    assert asked == [] && db.State() == Db.Empty;
  }

  /** A provider returning a miss: the first request reports MISS, the second HIT with the same status. */
  method MissScenario() {
    var db := new Db.Connection();
    var provider := (a: string) => Providers.Returned(Providers.Miss(Providers.ImpreciseAddress));
    var address := "Quebec City, Québec, Canada";
    var first, second, asked := LookupTwice(db, address, provider);
    assert asked == [address];
    assert first == Json(Body("IMPRECISE_ADDRESS", None, Some(Miss)), 200);
    assert second == Json(Body("IMPRECISE_ADDRESS", None, Some(Hit)), 200);
  }

  /** A provider returning a hit: the first request reports MISS, the second HIT with the same result. */
  method HitScenario() {
    var db := new Db.Connection();
    var hit := Providers.GeocodeHit(Some(40.0), Some(40.0), Some("Hello, world"), Some("123"), Some("G1K 3S6"), Some("mock"));
    var provider := (a: string) => Providers.Returned(Providers.Hit(hit));
    var first, second, asked := LookupTwice(db, "123 fake address", provider);
    assert asked == ["123 fake address"];
    assert first == Json(Body("OK", Some(hit), Some(Miss)), 200);
    assert second == Json(Body("OK", Some(hit), Some(Hit)), 200);
  }
}
