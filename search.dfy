/** The `search_template` tool: normalising the tool arguments into template
    parameters, and projecting the returned hits onto eight-key records. */
module Search {
  import opened Wrappers
  import opened Decimal

  /** A JSON scalar, as sent in parameters and as found in a hit's `fields`. */
  datatype Value = Str(s: string) | Int(i: int) | Float(r: real) | Bool(b: bool)

  /** The tool's arguments; `None` is an argument left out (Python `None`). */
  datatype SearchArgs = SearchArgs(
    query: string,
    latitude: Option<real>,
    longitude: Option<real>,
    distance: Option<int>,
    tax: Option<real>,
    bedrooms: Option<int>,
    homePrice: Option<real>,
    bathrooms: Option<real>,
    squareFootage: Option<int>,
    feature: Option<string>,
    maintenance: Option<real>)

  /** The eleven template parameters; `Name()` is the key sent for each. */
  datatype Param =
    | Query | Latitude | Longitude | Distance | Tax | Bedrooms
    | HomePrice | Bathrooms | SquareFootage | Feature | Maintenance
  {
    function Name(): string {
      match this
      case Query => "query"
      case Latitude => "latitude"
      case Longitude => "longitude"
      case Distance => "distance"
      case Tax => "tax"
      case Bedrooms => "bedrooms"
      case HomePrice => "home_price"
      case Bathrooms => "bathrooms"
      case SquareFootage => "square_footage"
      case Feature => "feature"
      case Maintenance => "maintenance"
    }

    /** The argument's annotation: `str`, `int` or `float`. */
    predicate Accepts(v: Value) {
      match this
      case Query | Feature => v.Str?
      case Distance | Bedrooms | SquareFootage => v.Int?
      case _ => v.Float?
    }
  }

  function FloatArg(x: Option<real>): Option<Value> {
    match x case None => None case Some(r) => Some(Float(r))
  }

  function IntArg(x: Option<int>): Option<Value> {
    match x case None => None case Some(i) => Some(Int(i))
  }

  /** The argument bound to each parameter, as the caller passed it: the
      required `query` is always there, and every value has its annotated type. */
  function Argument(args: SearchArgs, p: Param): (a: Option<Value>)
    ensures p == Query ==> a == Some(Str(args.query))
    ensures a.Some? ==> p.Accepts(a.value)
  {
    match p
    case Query => Some(Str(args.query))
    case Latitude => FloatArg(args.latitude)
    case Longitude => FloatArg(args.longitude)
    case Distance => IntArg(args.distance)
    case Tax => FloatArg(args.tax)
    case Bedrooms => IntArg(args.bedrooms)
    case HomePrice => FloatArg(args.homePrice)
    case Bathrooms => FloatArg(args.bathrooms)
    case SquareFootage => IntArg(args.squareFootage)
    case Feature => if args.feature.Some? then Some(Str(args.feature.value)) else None
    case Maintenance => FloatArg(args.maintenance)
  }

  /** Distinct parameters are sent under distinct keys. */
  lemma ParamNamesDistinct(p: Param, q: Param)
    requires p.Name() == q.Name()
    ensures p == q
  {
  }

  const ALL_PARAMS: set<Param> :=
    {Query, Latitude, Longitude, Distance, Tax, Bedrooms, HomePrice, Bathrooms, SquareFootage, Feature, Maintenance}

  lemma InAllParams(p: Param)
    ensures p in ALL_PARAMS
  {
  }

  /** The `params` dict literal followed by the comprehension that drops `None`s.
      Exactly the parameters whose argument was given are sent; `distance` is
      sent as its decimal text followed by `mi`, every other value unchanged. */
  function NormaliseParams(args: SearchArgs): (params: map<Param, Value>)
    ensures forall p: Param :: p in params <==> Argument(args, p).Some?
    ensures forall p | p in params && p != Distance :: params[p] == Argument(args, p).value
    ensures Distance in params ==> args.distance.Some? && params[Distance] == Str(IntToDecimal(args.distance.value) + "mi")
  {
    forall p: Param ensures p in ALL_PARAMS {
      InAllParams(p);
    }
    map p | p in ALL_PARAMS && Argument(args, p).Some? ::
      if p == Distance then Str(IntToDecimal(args.distance.value) + "mi") else Argument(args, p).value
  }

  /** The sent `distance` reads back as the number given, followed by the unit. */
  lemma DistanceReadsBack(args: SearchArgs)
    requires args.distance.Some?
    ensures var text := NormaliseParams(args)[Distance].s;
      && |text| >= 3 && text[|text| - 2..] == "mi"
      && ParseDecimal(text[..|text| - 2]) == Some(args.distance.value)
  {
    var digits := IntToDecimal(args.distance.value);
    var text := digits + "mi";
    assert NormaliseParams(args)[Distance] == Str(text);
    assert |digits| > 0;
    assert text[..|text| - 2] == digits;
  }

  // ---------------------------------------------------------------------------
  // Hits

  /** A hit; `fields` is `None` when the hit has no `fields` key. */
  datatype Hit = Hit(fields: Option<map<string, seq<Value>>>)

  function FieldsOf(hit: Hit): map<string, seq<Value>> {
    if hit.fields.Some? then hit.fields.value else map[]
  }

  /** The eight keys of a result record, the hit field each is read from, and
      the value used when that field is absent. */
  datatype RecordKey =
    | Title | AnnualTax | MaintenanceFee | NumberOfBathrooms | NumberOfBedrooms
    | SquareFeet | Price | Features
  {
    function Name(): string {
      match this
      case Title => "title"
      case AnnualTax => "tax"
      case MaintenanceFee => "maintenance"
      case NumberOfBathrooms => "bathrooms"
      case NumberOfBedrooms => "bedrooms"
      case SquareFeet => "square_footage"
      case Price => "home_price"
      case Features => "features"
    }

    function Field(): string {
      match this
      case Title => "title"
      case AnnualTax => "annual-tax"
      case MaintenanceFee => "maintenance-fee"
      case NumberOfBathrooms => "number-of-bathrooms"
      case NumberOfBedrooms => "number-of-bedrooms"
      case SquareFeet => "square-footage"
      case Price => "home-price"
      case Features => "property-features"
    }

    function Default(): Value {
      if this == Title then Str("No title") else Str("N/A")
    }
  }

  /** `fields.get(field, [default])[0]` cannot raise: the field is absent or its list is non-empty. */
  predicate Pickable(fields: map<string, seq<Value>>, field: string) {
    field in fields ==> |fields[field]| > 0
  }

  function Pick(fields: map<string, seq<Value>>, field: string, default: Value): (v: Value)
    requires Pickable(fields, field)
    ensures field in fields ==> v == fields[field][0] && v in fields[field]
    ensures field !in fields ==> v == default
  {
    if field in fields then fields[field][0] else default
  }

  /** No lookup of the projection raises `IndexError` on this hit. */
  predicate Projectable(hit: Hit) {
    forall k: RecordKey :: Pickable(FieldsOf(hit), k.Field())
  }

  /** Distinct record keys are rendered under distinct names, so a record
      written out as a dict keeps all eight entries. */
  lemma RecordKeyNamesDistinct(k: RecordKey, l: RecordKey)
    requires k.Name() == l.Name()
    ensures k == l
  {
  }

  const ALL_RECORD_KEYS: set<RecordKey> :=
    {Title, AnnualTax, MaintenanceFee, NumberOfBathrooms, NumberOfBedrooms, SquareFeet, Price, Features}

  lemma InAllRecordKeys(k: RecordKey)
    ensures k in ALL_RECORD_KEYS
  {
  }

  /** The `result` dict built for one hit: `fields.get(field, [default])[0]` per key. */
  function Project(hit: Hit): (record: map<RecordKey, Value>)
    requires Projectable(hit)
    ensures forall k: RecordKey :: k in record
  {
    forall k: RecordKey ensures k in ALL_RECORD_KEYS {
      InAllRecordKeys(k);
    }
    map k | k in ALL_RECORD_KEYS :: Pick(FieldsOf(hit), k.Field(), k.Default())
  }

  /** What each entry of a record holds: the first element of the hit's field
      when the hit has it, otherwise `'No title'` for the title and `'N/A'` for
      every other key. */
  lemma ProjectFields(hit: Hit)
    requires Projectable(hit)
    ensures forall k: RecordKey | k.Field() in FieldsOf(hit) :: Project(hit)[k] == FieldsOf(hit)[k.Field()][0]
    ensures "title" !in FieldsOf(hit) ==> Project(hit)[Title] == Str("No title")
    ensures forall k: RecordKey | k != Title && k.Field() !in FieldsOf(hit) :: Project(hit)[k] == Str("N/A")
  {
  }

  /** A record has exactly eight keys. */
  lemma RecordHasEightKeys(hit: Hit)
    requires Projectable(hit)
    ensures |Project(hit)| == 8
  {
    RecordKeysCount();
    assert Project(hit).Keys == ALL_RECORD_KEYS;
  }

  lemma RecordKeysCount()
    ensures |ALL_RECORD_KEYS| == 8
  {
  }

  /** The `for hit in hits` loop: one record per hit, in hit order; the first hit
      with an empty field list raises, which ends the tool with an error. */
  method FormatResults(hits: seq<Hit>) returns (results: Option<seq<map<RecordKey, Value>>>)
    ensures results.Some? <==> forall k | 0 <= k < |hits| :: Projectable(hits[k])
    ensures results.Some? ==> |results.value| == |hits|
    ensures results.Some? ==> forall k | 0 <= k < |hits| :: results.value[k] == Project(hits[k])
  {
    var records: seq<map<RecordKey, Value>> := [];
    var i := 0;
    while i < |hits|
      invariant 0 <= i <= |hits|
      invariant |records| == i
      invariant forall k | 0 <= k < i :: Projectable(hits[k]) && records[k] == Project(hits[k])
    {
      var hit := hits[i];
      if !Projectable(hit) {
        return None;
      }
      records := records + [Project(hit)];
      i := i + 1;
    }
    return Some(records);
  }

  // ---------------------------------------------------------------------------
  // The tool

  /** The search backend's answer: `Raised` for an exception, otherwise the
      `hits.hits` list and the `hits.total.value` count, each possibly absent. */
  datatype SearchReply = Raised | Reply(hits: Option<seq<Hit>>, total: Option<int>)

  /** `response.get('hits', {}).get('hits', [])`. */
  function HitsOf(reply: SearchReply): (hits: seq<Hit>)
    requires reply.Reply?
    ensures reply.hits.None? ==> hits == []
    ensures reply.hits.Some? ==> hits == reply.hits.value
  {
    if reply.hits.Some? then reply.hits.value else []
  }

  /** `response.get('hits', {}).get('total', {}).get('value', 0)`. */
  function TotalOf(reply: SearchReply): (total: int)
    requires reply.Reply?
    ensures reply.total.None? ==> total == 0
    ensures reply.total.Some? ==> total == reply.total.value
  {
    if reply.total.Some? then reply.total.value else 0
  }

  /** The template id the tool always uses, and the index it uses when
      `ES_INDEX` is not set. */
  const TEMPLATE_ID: string := "properties-search-template"
  const DEFAULT_INDEX: string := "properties"

  /** The arguments of `es_client.search_template`. */
  datatype SearchRequest = SearchRequest(index: string, id: string, params: map<Param, Value>)

  /** The call the tool makes: `esIndex` is the value of `ES_INDEX` in the
      environment, absent when it is unset. */
  function RequestFor(esIndex: Option<string>, args: SearchArgs): (request: SearchRequest)
    ensures esIndex.None? ==> request.index == DEFAULT_INDEX
    ensures esIndex.Some? ==> request.index == esIndex.value
    ensures request.id == TEMPLATE_ID
    ensures request.params == NormaliseParams(args)
  {
    SearchRequest(if esIndex.Some? then esIndex.value else DEFAULT_INDEX, TEMPLATE_ID, NormaliseParams(args))
  }

  datatype SearchOutcome =
    | SearchError
    | NoResults(originalQuery: string)
    | Results(total: int, results: seq<map<RecordKey, Value>>)

  /** `search_template(original_query, ...)`. The template call is `backend`,
      applied to the request `RequestFor` builds. */
  method SearchTemplate(originalQuery: string, args: SearchArgs, esIndex: Option<string>,
                        backend: SearchRequest -> SearchReply)
    returns (outcome: SearchOutcome)
    ensures backend(RequestFor(esIndex, args)).Raised? ==> outcome == SearchError
    ensures outcome.NoResults? <==>
      backend(RequestFor(esIndex, args)).Reply? && HitsOf(backend(RequestFor(esIndex, args))) == []
    ensures outcome.NoResults? ==> outcome.originalQuery == originalQuery
    ensures outcome.Results? <==>
      && backend(RequestFor(esIndex, args)).Reply?
      && HitsOf(backend(RequestFor(esIndex, args))) != []
      && forall k | 0 <= k < |HitsOf(backend(RequestFor(esIndex, args)))| ::
           Projectable(HitsOf(backend(RequestFor(esIndex, args)))[k])
    ensures outcome.Results? ==>
      var hits := HitsOf(backend(RequestFor(esIndex, args)));
      && outcome.total == TotalOf(backend(RequestFor(esIndex, args)))
      && |outcome.results| == |hits|
      && forall k | 0 <= k < |hits| :: outcome.results[k] == Project(hits[k])
  {
    var request := RequestFor(esIndex, args);
    var reply := backend(request);
    if reply.Raised? {
      return SearchError;
    }
    var hits := HitsOf(reply);
    if hits == [] {
      return NoResults(originalQuery);
    }
    var results := FormatResults(hits);
    if results.None? {
      return SearchError;
    }
    return Results(TotalOf(reply), results.value);
  }
}
