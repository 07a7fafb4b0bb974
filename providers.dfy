/**
 * The result model of the geocoding cache, and the Google classifier that
 * maps a Google Geocoding API response to a result.
 *
 * A result is either a `GeocodeHit` (coordinates and address parts) or a
 * `GeocodeMiss` (one of four failure codes).  The HTTP request itself is not
 * modelled: `Google` receives the already parsed response.
 */
module Providers {
  import opened Wrappers

  /** Latitude and longitude are floats in the program; the model only copies and compares them. */
  type Coordinate = real

  /** The closed set of reasons a geocoding attempt fails. */
  datatype GeocodeMiss = RateLimitExceeded | ImpreciseAddress | UnparseableAddress | UnknownError
  {
    /** The code of this reason, shared by the database and the JSON reply. */
    function Value(): (code: string) {
      match this
      case RateLimitExceeded => "RATE_LIMIT_EXCEEDED"
      case ImpreciseAddress => "IMPRECISE_ADDRESS"
      case UnparseableAddress => "UNPARSEABLE_ADDRESS"
      case UnknownError => "UNKNOWN_ERROR"
    }

    predicate IsMiss() {
      true
    }

    /** `GeocodeMiss(code)`: the member whose value is `code`; Python raises a ValueError for any other string. */
    static function FromValue(code: string): (miss: Option<GeocodeMiss>)
      ensures miss.Some? ==> miss.value.Value() == code
      ensures miss.None? ==> forall m: GeocodeMiss :: m.Value() != code
    {
      if code == "RATE_LIMIT_EXCEEDED" then Some(RateLimitExceeded)
      else if code == "IMPRECISE_ADDRESS" then Some(ImpreciseAddress)
      else if code == "UNPARSEABLE_ADDRESS" then Some(UnparseableAddress)
      else if code == "UNKNOWN_ERROR" then Some(UnknownError)
      else None
    }
  }

  /**
   * A successful resolution.  The fields are typed as floats and strings in
   * the program, but nothing stops them from being `None`: a hit read back
   * from a query row that has no outcome row has every field `None`.
   */
  datatype GeocodeHit = GeocodeHit(
    latitude: Option<Coordinate>,
    longitude: Option<Coordinate>,
    displayAddress: Option<string>,
    streetNumber: Option<string>,
    postalCode: Option<string>,
    provider: Option<string>)
  {
    predicate IsMiss() {
      false
    }
  }

  /** `GeocodeResult = Union[GeocodeMiss, GeocodeHit]`, dispatching `is_miss` to the variant. */
  datatype GeocodeResult = Miss(miss: GeocodeMiss) | Hit(hit: GeocodeHit)
  {
    predicate IsMiss() {
      match this
      case Miss(m) => m.IsMiss()
      case Hit(h) => h.IsMiss()
    }
  }

  /** Every miss code reports itself as a miss. */
  lemma MissIsMiss(m: GeocodeMiss)
    ensures m.IsMiss()
  {
  }

  /** No hit reports itself as a miss, whatever its fields. */
  lemma HitIsNotMiss(h: GeocodeHit)
    ensures !h.IsMiss()
  {
  }

  /** `is_miss` tells the two variants apart exactly. */
  lemma IsMissDiscriminates(r: GeocodeResult)
    ensures r.IsMiss() <==> r.Miss?
    ensures !r.IsMiss() <==> r.Hit?
  {
  }

  /** The miss codes are exactly four distinct strings, and `FromValue` inverts `Value`. */
  lemma MissCodesExact()
    ensures forall m: GeocodeMiss :: m.Value() in {"RATE_LIMIT_EXCEEDED", "IMPRECISE_ADDRESS", "UNPARSEABLE_ADDRESS", "UNKNOWN_ERROR"}
    ensures forall m: GeocodeMiss, n: GeocodeMiss :: m.Value() == n.Value() ==> m == n
    ensures forall code :: code in {"RATE_LIMIT_EXCEEDED", "IMPRECISE_ADDRESS", "UNPARSEABLE_ADDRESS", "UNKNOWN_ERROR"} <==> GeocodeMiss.FromValue(code).Some?
    ensures forall m: GeocodeMiss :: GeocodeMiss.FromValue(m.Value()) == Some(m)
  {
  }

  /**
   * Parsing the value of a miss gives that miss back: the last `ensures` of
   * `MissCodesExact` for one miss, kept so that proofs about one stored miss
   * need not bring in all of that lemma's quantifiers.
   */
  lemma FromValueOfValue(m: GeocodeMiss)
    ensures GeocodeMiss.FromValue(m.Value()) == Some(m)
  {
  }

  // ---------------------------------------------------------------------------
  // The Google Geocoding API response, as far as the classifier reads it.

  datatype AddressComponent = AddressComponent(longName: string, types: seq<string>)

  datatype Geometry = Geometry(locationType: string, lat: Coordinate, lng: Coordinate)

  datatype GoogleResult = GoogleResult(
    geometry: Geometry,
    formattedAddress: string,
    addressComponents: seq<AddressComponent>)

  datatype GoogleResponse = GoogleResponse(status: string, results: seq<GoogleResult>)

  /**
   * What calling a provider yields: a result, or an exception escaping the
   * provider (Google's `response["results"][0]` on an empty list, a failed
   * request), which the program does not catch.
   */
  datatype ProviderReply = Returned(result: GeocodeResult) | Raised

  /** Some component of the list is tagged with `kind`. */
  ghost predicate HasComponent(components: seq<AddressComponent>, kind: string) {
    exists i :: 0 <= i < |components| && kind in components[i].types
  }

  /** The first result is precise enough to be a hit: rooftop level, with a street number and a postal code. */
  ghost predicate Precise(result: GoogleResult) {
    && result.geometry.locationType == "ROOFTOP"
    && HasComponent(result.addressComponents, "street_number")
    && HasComponent(result.addressComponents, "postal_code")
  }

  /** The long name of the LAST component tagged with `kind`, or `None` when no component is. */
  function LastLongName(components: seq<AddressComponent>, kind: string): (name: Option<string>)
    ensures name.None? <==> !HasComponent(components, kind)
    ensures name.Some? ==>
      exists i :: 0 <= i < |components| && kind in components[i].types && components[i].longName == name.value &&
        forall j :: i < j < |components| ==> kind !in components[j].types
  {
    if |components| == 0 then None
    else if kind in components[|components| - 1].types then Some(components[|components| - 1].longName)
    else LastLongName(components[..|components| - 1], kind)
  }

  /**
   * The classification done by `google` once the response is parsed: the
   * status decides first (throttling, no match, any other failure), then the
   * location type of the first result, then whether a street number and a
   * postal code were found among its address components.
   */
  method Google(response: GoogleResponse) returns (reply: ProviderReply)
    ensures reply == Returned(Miss(RateLimitExceeded)) <==> response.status == "OVER_QUERY_LIMIT"
    ensures reply == Returned(Miss(UnparseableAddress)) <==> response.status == "ZERO_RESULTS"
    ensures reply == Returned(Miss(UnknownError)) <==>
      response.status !in {"OK", "OVER_QUERY_LIMIT", "ZERO_RESULTS"}
    ensures reply == Raised <==> response.status == "OK" && |response.results| == 0
    ensures reply == Returned(Miss(ImpreciseAddress)) <==>
      response.status == "OK" && |response.results| > 0 && !Precise(response.results[0])
    ensures reply.Returned? && reply.result.Hit? <==>
      response.status == "OK" && |response.results| > 0 && Precise(response.results[0])
    ensures reply.Returned? && reply.result.Hit? ==>
      var first := response.results[0];
      reply.result.hit == GeocodeHit(
        Some(first.geometry.lat),
        Some(first.geometry.lng),
        Some(first.formattedAddress),
        LastLongName(first.addressComponents, "street_number"),
        LastLongName(first.addressComponents, "postal_code"),
        Some("google"))
  {
    if response.status == "OVER_QUERY_LIMIT" {
      return Returned(Miss(RateLimitExceeded));
    }
    if response.status == "ZERO_RESULTS" {
      return Returned(Miss(UnparseableAddress));
    }
    if response.status != "OK" {
      return Returned(Miss(UnknownError));
    }
    if |response.results| == 0 {
      return Raised;
    }
    var result := response.results[0];
    var geometry := result.geometry;
    if geometry.locationType != "ROOFTOP" {
      return Returned(Miss(ImpreciseAddress));
    }

    var components := result.addressComponents;
    var streetNumber: Option<string>, postalCode: Option<string> := None, None;
    for i := 0 to |components|
      invariant streetNumber == LastLongName(components[..i], "street_number")
      invariant postalCode == LastLongName(components[..i], "postal_code")
    {
      var addressPart := components[i];
      assert components[..i + 1][..i] == components[..i];
      if "street_number" in addressPart.types {
        streetNumber := Some(addressPart.longName);
      }
      if "postal_code" in addressPart.types {
        postalCode := Some(addressPart.longName);
      }
    }
    assert components[..|components|] == components;

    if streetNumber.None? || postalCode.None? {
      return Returned(Miss(ImpreciseAddress));
    }
    return Returned(Hit(GeocodeHit(
      Some(geometry.lat),
      Some(geometry.lng),
      Some(result.formattedAddress),
      streetNumber,
      postalCode,
      Some("google"))));
  }
}
