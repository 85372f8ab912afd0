/** The `geocode_location` tool: one geocoder request, and when its first result
    is empty, a second request with the state abbreviation spelled out. */
module Geocode {
  import opened Wrappers
  import opened Chars
  import opened TextReplace

  /** `STATE_ABBREVIATIONS`. */
  const STATE_ABBREVIATIONS: map<string, string> := map[
    "AL" := "Alabama", "AK" := "Alaska", "AZ" := "Arizona", "AR" := "Arkansas",
    "CA" := "California", "CO" := "Colorado", "CT" := "Connecticut", "DE" := "Delaware",
    "FL" := "Florida", "GA" := "Georgia", "HI" := "Hawaii", "ID" := "Idaho",
    "IL" := "Illinois", "IN" := "Indiana", "IA" := "Iowa", "KS" := "Kansas",
    "KY" := "Kentucky", "LA" := "Louisiana", "ME" := "Maine", "MD" := "Maryland",
    "MA" := "Massachusetts", "MI" := "Michigan", "MN" := "Minnesota", "MS" := "Mississippi",
    "MO" := "Missouri", "MT" := "Montana", "NE" := "Nebraska", "NV" := "Nevada",
    "NH" := "New Hampshire", "NJ" := "New Jersey", "NM" := "New Mexico", "NY" := "New York",
    "NC" := "North Carolina", "ND" := "North Dakota", "OH" := "Ohio", "OK" := "Oklahoma",
    "OR" := "Oregon", "PA" := "Pennsylvania", "RI" := "Rhode Island", "SC" := "South Carolina",
    "SD" := "South Dakota", "TN" := "Tennessee", "TX" := "Texas", "UT" := "Utah",
    "VT" := "Vermont", "VA" := "Virginia", "WA" := "Washington", "WV" := "West Virginia",
    "WI" := "Wisconsin", "WY" := "Wyoming", "DC" := "District of Columbia"
  ]

  // ---------------------------------------------------------------------------
  // The state-abbreviation fallback

  /** `, ([A-Z]{2})(?:\s|$)` matches at `i`. */
  predicate StateTokenAt(s: string, i: nat) {
    && i + 4 <= |s|
    && s[i] == ',' && s[i + 1] == ' '
    && IsUpper(s[i + 2]) && IsUpper(s[i + 3])
    && (i + 4 == |s| || IsSpace(s[i + 4]))
  }

  /** `re.search` from position `i`: the first position where the pattern matches. */
  function SearchStateToken(s: string, i: nat): (p: Option<nat>)
    requires i <= |s|
    ensures p.Some? ==> i <= p.value && StateTokenAt(s, p.value)
    ensures p.Some? ==> forall q: nat | i <= q < p.value :: !StateTokenAt(s, q)
    ensures p.None? ==> forall q: nat | i <= q :: !StateTokenAt(s, q)
    decreases |s| - i
  {
    if |s| < i + 4 then None
    else if StateTokenAt(s, i) then Some(i)
    else SearchStateToken(s, i + 1)
  }

  /** `state_match.group(1)`: the two capitals of the first match, if there is one. */
  function StateAbbreviation(location: string): (abbr: Option<string>)
    ensures abbr.None? <==> forall q: nat :: !StateTokenAt(location, q)
    ensures abbr.Some? ==> exists p: nat ::
      && StateTokenAt(location, p) && location[p + 2..p + 4] == abbr.value
      && forall q: nat | q < p :: !StateTokenAt(location, q)
  {
    match SearchStateToken(location, 0)
    case None => None
    case Some(p) => Some(location[p + 2..p + 4])
  }

  /** The fallback location, or `None` when there is no abbreviation or it is not
      in the table (the code tests the name it looks up for truthiness). */
  function FallbackLocation(location: string): (r: Option<string>)
    ensures r.Some? <==>
      && StateAbbreviation(location).Some?
      && StateAbbreviation(location).value in STATE_ABBREVIATIONS
      && STATE_ABBREVIATIONS[StateAbbreviation(location).value] != ""
    ensures r.Some? ==>
      var abbr := StateAbbreviation(location).value;
      var pieces := Split(location, ", " + abbr);
      && r.value == Join(pieces, ", " + STATE_ABBREVIATIONS[abbr])
      && Join(pieces, ", " + abbr) == location
  {
    match StateAbbreviation(location)
    case None => None
    case Some(abbr) =>
      if abbr in STATE_ABBREVIATIONS && STATE_ABBREVIATIONS[abbr] != "" then
        var replaced := Replace(location, ", " + abbr, ", " + STATE_ABBREVIATIONS[abbr]);
        JoinSplit(location, ", " + abbr);
        Some(replaced)
      else None
  }

  // ---------------------------------------------------------------------------
  // The tool

  /** The parts of a geocoder result the tool looks at. `Empty` is the empty dict
      (also what `data.get('results', [{}])[0]` yields when there is no `results`
      key); `Fields` is any other dict. Coordinates are uninterpreted numbers. */
  datatype LatLng = LatLng(lat: Option<real>, lng: Option<real>)
  datatype Geometry = Geometry(location: Option<LatLng>)
  datatype GeoResult = Empty | Fields(geometry: Option<Geometry>)

  /** The decoded geocoder answer: its `status` and its `results` list, each absent
      or present. A request whose `requests.get` or `response.json()` raises has no
      reply: the geocoder then answers `None`. */
  datatype GeoReply = GeoReply(status: Option<string>, results: Option<seq<GeoResult>>)

  /** What the tool answers. `Error` stands for the generic text produced by the
      broad exception handler (an `IndexError` or a `KeyError` here). */
  datatype GeocodeOutcome =
    | KeyMissing
    | Failed(status: Option<string>)
    | NotFound
    | Error
    | Located(latitude: real, longitude: real)

  /** `data.get('results', [{}])[0]`; `None` when the list is empty (`IndexError`). */
  function FirstResult(reply: GeoReply): (r: Option<GeoResult>)
    ensures r.None? <==> reply.results == Some([])
    ensures reply.results.None? ==> r == Some(Empty)
    ensures reply.results.Some? && |reply.results.value| > 0 ==> r == Some(reply.results.value[0])
  {
    match reply.results
    case None => Some(Empty)
    case Some(results) => if |results| == 0 then None else Some(results[0])
  }

  /** The final checks on the chosen result and the `geo_point` it yields. */
  function Conclude(result: Option<GeoResult>): (outcome: GeocodeOutcome)
    ensures outcome.Located? <==>
      exists lat, lng :: result == Some(Fields(Some(Geometry(Some(LatLng(Some(lat), Some(lng)))))))
    ensures outcome.Located? ==>
      result == Some(Fields(Some(Geometry(Some(LatLng(Some(outcome.latitude), Some(outcome.longitude)))))))
    ensures outcome == NotFound <==>
      result == Some(Empty) || result == Some(Fields(None)) || result == Some(Fields(Some(Geometry(None))))
    ensures outcome == Error <==>
      || result.None?
      || (&& result.value.Fields? && result.value.geometry.Some?
          && result.value.geometry.value.location.Some?
          && (result.value.geometry.value.location.value.lat.None?
              || result.value.geometry.value.location.value.lng.None?))
    ensures outcome.Located? || outcome == NotFound || outcome == Error
  {
    match result
    case None => Error
    case Some(Empty) => NotFound
    case Some(Fields(None)) => NotFound
    case Some(Fields(Some(Geometry(None)))) => NotFound
    case Some(Fields(Some(Geometry(Some(LatLng(Some(lat), Some(lng))))))) => Located(lat, lng)
    case Some(Fields(Some(Geometry(Some(_))))) => Error
  }

  /** The query parameters of the first request. */
  function InitialParams(location: string, key: string): (params: map<string, string>)
    ensures params.Keys == {"address", "region", "key"}
    ensures params["address"] == location && params["region"] == "us" && params["key"] == key
  {
    map["address" := location, "region" := "us", "key" := key]
  }

  /** `geocode_location(location)`. The HTTP requests are the calls of `geocoder`;
      `requests` lists the query parameters sent, in order. A request that raises
      ends the tool with the generic error answer. */
  method GeocodeLocation(apiKey: Option<string>, location: string, geocoder: map<string, string> -> Option<GeoReply>)
    returns (outcome: GeocodeOutcome, requests: seq<map<string, string>>)
    ensures !Truthy(apiKey) <==> outcome == KeyMissing
    ensures !Truthy(apiKey) ==> requests == []
    ensures Truthy(apiKey) ==> 1 <= |requests| <= 2 && requests[0] == InitialParams(location, apiKey.value)
    ensures Truthy(apiKey) && geocoder(requests[0]).None? ==> outcome == Error && |requests| == 1
    ensures outcome.Failed? <==>
      Truthy(apiKey) && geocoder(requests[0]).Some? && geocoder(requests[0]).value.status != Some("OK")
    ensures outcome.Failed? ==> outcome.status == geocoder(requests[0]).value.status
    ensures |requests| == 2 <==>
      && Truthy(apiKey)
      && geocoder(requests[0]).Some?
      && geocoder(requests[0]).value.status == Some("OK")
      && FirstResult(geocoder(requests[0]).value) == Some(Empty)
      && FallbackLocation(location).Some?
    ensures |requests| == 2 ==> requests[1] == requests[0]["address" := FallbackLocation(location).value]
    ensures |requests| == 2 && geocoder(requests[1]).None? ==> outcome == Error
    ensures
      && Truthy(apiKey)
      && geocoder(requests[0]).Some?
      && geocoder(requests[0]).value.status == Some("OK")
      && geocoder(requests[|requests| - 1]).Some?
      ==> outcome == Conclude(FirstResult(geocoder(requests[|requests| - 1]).value))
  {
    if !Truthy(apiKey) {
      return KeyMissing, [];
    }
    var params := InitialParams(location, apiKey.value);
    requests := [params];
    var response := geocoder(params);
    if response.None? {
      return Error, requests;
    }
    var data := response.value;
    if data.status != Some("OK") {
      return Failed(data.status), requests;
    }
    var result := FirstResult(data);
    if result == Some(Empty) {
      var fallback := FallbackLocation(location);
      if fallback.Some? {
        params := params["address" := fallback.value];
        requests := requests + [params];
        var fallbackResponse := geocoder(params);
        if fallbackResponse.None? {
          return Error, requests;
        }
        result := FirstResult(fallbackResponse.value);
      }
    }
    outcome := Conclude(result);
  }
}
