# Elastic Python MCP Server — verified model of the tool logic

This project models, in Dafny, the self-contained logic of `elastic_mcp_server.py`,
the MCP tool server that answers real-estate property searches against Elasticsearch:

- **Configuration** (`Config`): `ElasticsearchConfig.__init__` rejects an empty URL, a
  username without a password and a password without a username (Python truthiness:
  an absent value and `""` are both false), then stores its eight arguments.
- **Template parameters** (`TemplateParams`): `get_properties_template_params` scans
  the stored Mustache search template with `re.findall(r'\{\{\s*([a-zA-Z0-9_]+)\s*\}\}')`
  and returns the distinct names. The scanner is modelled position by position, with
  the result the regular-expression engine gives, and proved to return exactly the names written as
  plain variable tags `{{ name }}`.
- **Text replacement** (`TextReplace`): Python's `str.replace`, with `str.split` and
  `str.join` as an independent reference.
- **Geocoding** (`Geocode`): `geocode_location`, including the fallback that, when the
  first geocoder result is empty, finds the first `, XX` state abbreviation, looks it
  up in `STATE_ABBREVIATIONS` and sends a second request with every `, XX` spelled out.
- **Search** (`Search`, `Decimal`): `search_template` normalises its eleven arguments
  into template parameters (dropping absent ones, rendering `distance` as `<n>mi`) and
  projects every hit onto an eight-key record with per-key defaults.

The geocoder, the Elasticsearch `get_script` call and the template search are not
modelled: they are inputs. `GeocodeLocation` and `SearchTemplate` take them as
function parameters (the HTTP request with its query parameters, the search with its
parameter map), and `GetTemplateParams` takes the fetched template source.

## Model

| member | source | states |
|---|---|---|
| Config.Validate | elastic_mcp_server.py:54-61 | the empty URL is rejected first; a username without a password and a password without a username are rejected; a configuration passes exactly when the URL is non-empty and username and password are both truthy or both not |
| Config.ElasticsearchConfig.constructor | elastic_mcp_server.py:54-70 | reached only when the checks pass; every argument is stored unchanged in its field and the configuration satisfies `Valid()` |
| Config.ElasticsearchConfig.New | elastic_mcp_server.py:43-70 | the constructor raises exactly the error `Validate` names; otherwise it returns a fresh configuration holding exactly the eight arguments, which satisfies `Valid()` (non-empty URL, username present iff password present) |
| Config.ElasticsearchConfig.WithDefaults | elastic_mcp_server.py:43-70 | with every optional argument left at its default, only an empty URL is refused; otherwise the configuration holds the URL, no credentials, keys or certificate, and the default template and inference ids |
| TemplateParams.BlankEnd | elastic_mcp_server.py:135 | greedy `\s*`: the run from `i` consists of whitespace and stops at the first non-whitespace character or the end |
| TemplateParams.NameEnd | elastic_mcp_server.py:135 | greedy `[a-zA-Z0-9_]+` run: word characters up to the first other character or the end |
| TemplateParams.MatchAt | elastic_mcp_server.py:135 | a match at `i` spans at least five characters inside the text and captures a non-empty name of word characters |
| TemplateParams.MatchIsTag | elastic_mcp_server.py:135 | every match at `i` is a plain tag written at `i` (`{{`, blanks, the captured name, blanks, `}}` contiguously), and the match ends where that tag ends |
| TemplateParams.TagIsMatch | elastic_mcp_server.py:135 | every plain tag written at `i` is matched at `i` with its name |
| TemplateParams.NoStraddle | elastic_mcp_server.py:135 | a match never covers the start of a later tag, so left-to-right non-overlapping matching cannot hide one |
| TemplateParams.FindAll | elastic_mcp_server.py:135 | `re.findall` from a position: every reported name is a non-empty run of `[a-zA-Z0-9_]` |
| TemplateParams.Parameters | elastic_mcp_server.py:135-136 | the distinct names found: each is a non-empty run of `[a-zA-Z0-9_]` |
| TemplateParams.FindAllComplete | elastic_mcp_server.py:135 | the findall scan from `k` reports the name of every match starting at or after `k` |
| TemplateParams.FindAllSound | elastic_mcp_server.py:135 | every name the scan reports is matched at some position |
| TemplateParams.ParametersExact | elastic_mcp_server.py:135-136 | a name is among the distinct parameters iff the template contains `{{`, optional whitespace, the name, optional whitespace, `}}`; section, inverted and closing tags contribute nothing |
| TemplateParams.GetTemplateParams | elastic_mcp_server.py:118-156 | an error answer exactly when the template cannot be fetched; otherwise the parameter set is exactly the names written as plain tags |
| TextReplace.Find | elastic_mcp_server.py:211 | the first occurrence of the pattern, with no earlier one; none when the pattern never occurs |
| TextReplace.Split | elastic_mcp_server.py:211 | splitting at the pattern yields at least one piece, and searching any piece for the pattern finds nothing |
| TextReplace.JoinSplit | elastic_mcp_server.py:211 | joining the pieces with the pattern gives the text back |
| TextReplace.Replace | elastic_mcp_server.py:211 | `str.replace` replaces every occurrence: it equals the pieces between occurrences joined with the replacement |
| TextReplace.NoOccurrenceReplace | elastic_mcp_server.py:211 | a text without the pattern is left unchanged |
| Geocode.SearchStateToken | elastic_mcp_server.py:206 | `re.search` for `, ([A-Z]{2})(?:\s|$)` returns the first position where the pattern matches, and none when it matches nowhere |
| Geocode.StateAbbreviation | elastic_mcp_server.py:206-208 | the abbreviation is the two capitals of the first match, and absent exactly when there is no match |
| Geocode.FallbackLocation | elastic_mcp_server.py:206-211 | a fallback exists exactly when the first abbreviation is in the table with a non-empty name; it is the location split at every `, XX` and rejoined with `, <name>`, so every occurrence is rewritten, not only the matched one |
| Geocode.FirstResult | elastic_mcp_server.py:198 | a missing `results` key yields the empty result; an empty `results` list raises; otherwise the first element of the list |
| Geocode.Conclude | elastic_mcp_server.py:218-237 | a point is returned exactly when the result has `geometry.location` with both coordinates, and it carries those coordinates; an empty result or one missing `geometry` or `location` is "could not geocode"; the error answer comes exactly from an empty `results` list (`IndexError`) or a `location` missing `lat` or `lng` (`KeyError`); nothing else can be answered |
| Geocode.InitialParams | elastic_mcp_server.py:178-182 | the first request carries exactly the keys `address`, `region` and `key`, with the location, `us` and the API key |
| Geocode.GeocodeLocation | elastic_mcp_server.py:166-244 | without a truthy API key nothing is requested; otherwise the first request carries address, region `us` and key; a request that raises gives the error answer; a non-OK status fails with that status; the second request is sent exactly when the first result is empty and a fallback exists, and differs from the first only in `address`; otherwise the answer is decided by the last reply |
| Decimal.NatToDecimalDenotes | elastic_mcp_server.py:273 | the decimal digits of `n` are non-empty, have no leading zero and denote `n` |
| Decimal.NatToDecimal | elastic_mcp_server.py:273 | the digits of a non-negative integer form a non-empty string of decimal digits |
| Decimal.IntToDecimal | elastic_mcp_server.py:273 | `str(n)` inside `f"{distance}mi"`: the rendering of an integer, sign included, reads back as the same integer |
| Search.Argument | elastic_mcp_server.py:248-281 | the binding of each parameter to its same-named argument is the definition itself; the contract adds that `query` is always present and that every present value has the type the argument is annotated with |
| Search.ParamNamesDistinct | elastic_mcp_server.py:269-281 | distinct parameters are sent under distinct keys |
| Search.NormaliseParams | elastic_mcp_server.py:269-284 | exactly the parameters whose argument is not None are sent; `distance` is sent as its decimal text followed by `mi`; every other value is passed through unchanged |
| Search.DistanceReadsBack | elastic_mcp_server.py:273 | the sent distance ends in `mi` and the text before it reads back as the given number |
| Search.Project | elastic_mcp_server.py:309-319 | the record built for a hit has an entry for every one of the eight record keys |
| Search.Pick | elastic_mcp_server.py:311-318 | `fields.get(field, [default])[0]`: the first element of the field's list when the field is present, otherwise the default |
| Search.ProjectFields | elastic_mcp_server.py:310-319 | a present field contributes its first element; an absent field gives `'No title'` for the title and `'N/A'` for every other key |
| Search.RecordHasEightKeys | elastic_mcp_server.py:310-319 | a record has exactly eight keys |
| Search.RecordKeyNamesDistinct | elastic_mcp_server.py:310-319 | distinct record keys have distinct names, so a rendered record keeps all eight entries |
| Search.FormatResults | elastic_mcp_server.py:307-320 | one record per hit, in hit order, each the projection of its hit; the loop raises exactly when some hit has an empty list for a projected field |
| Search.HitsOf | elastic_mcp_server.py:296 | `response.get('hits', {}).get('hits', [])`: the returned hit list, or no hits when it is missing |
| Search.TotalOf | elastic_mcp_server.py:297 | `.get('total', {}).get('value', 0)`: the returned total, or 0 when it is missing |
| Search.RequestFor | elastic_mcp_server.py:263-264 | the search goes to the index named by `ES_INDEX`, or `properties` when it is unset, with the template id `properties-search-template` and the normalised parameters |
| Search.SearchTemplate | elastic_mcp_server.py:262-338 | the search is run with the request `RequestFor` builds; a raising search is an error; no hits gives only the "No results found" answer for the original query; otherwise the total and one projected record per hit, or an error when a projection raises |

## Left out

- The background `check_inference_endpoint` loop (elastic_mcp_server.py:93-113): periodic asynchronous I/O.
- The Elasticsearch client and FastMCP server construction, tool registration, `main()` with its environment variables, and `server.run` (elastic_mcp_server.py:76-90, 342-358): framework and environment set-up.
- The HTTP requests and JSON decoding: the geocoder and the search backend are function parameters, the fetched template is an `Option` input. A geocoder request that raises is a `None` reply, a raising search is `Raised`, and a failed template fetch is `None`; each gives the tool's error outcome.
- The exact text of each answer (f-strings, `json.dumps`) and all logging: the outcomes name the kind of answer and the data it carries.
- The order of the parameter list returned by `list(set(...))`, which Python leaves to hashing: the model returns the set.
- Coordinates and float arguments are uninterpreted `real` values; nothing is computed on them.
- Config.ElasticsearchConfig.New: every argument is passed explicitly; `WithDefaults` covers the call with the URL alone, and the other mixes of given and defaulted keyword arguments are not separate members.
- Config.Validate: the URL is a string as annotated; a `None` URL, which Python would reject like `""`, is not a separate input.
- Search.NormaliseParams: `query` is a required string argument and is always sent; a `bool` passed as `distance` (rendered `True`) is not modelled.
- Search.Project: a field whose value is not a list (where `[0]` would pick a character) is not modelled; field values are lists of JSON scalars.
- Geocode.Conclude: a `geometry` or `location` value that is not a dict is not modelled.
- The table `STATE_ABBREVIATIONS` is carried as data; that its 51 names are all non-empty is not proved, so `FallbackLocation` keeps the code's own truthiness test.
- data-ingestion/ingest-properties.py and src/elastic-mcp.py are not part of this model: the first is straight-line index, template and bulk-load calls against Elasticsearch, the second a thin forwarding wrapper. The bulk-ingestion retry loop, the document-count verification and the nested reindex retry are not implemented in any of the modelled files, so they are not modelled either.
