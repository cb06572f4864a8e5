# Wikidata proxy server: decision logic in Dafny

This project models the decision logic of a small Express server (`server.js`). The server answers three JSON routes from Wikidata's SPARQL query service:

- `GET /api/country/:iso3` returns a country record for an ISO 3166 numeric code.
- `GET /api/places/:iso3?limit=&minSitelinks=` returns the best-known places in that country.
- `GET /api/place/:qid` returns a detail card for one Wikidata entity.

Every route reads through an in-memory cache whose entries live 24 hours.

The model covers four parts:

- **The TTL cache** (`cache.dfy`). `Cache.TtlCache` is a class holding a `map` from key to `{ts, data}`. Its `Get` and `Set` methods are `getCache` and `setCache`, with the clock passed in as `now`. The pure functions `Fetch` and `Store` specify the two methods. Lemmas about those functions give the hit/miss/expiry outcomes and show that nothing outside the key changes. Expiry is strict: an entry whose age is exactly one day still hits.
- **The value helpers** (`wikidata.dfy`, with `text.dfy`, `numbers.dfy` and `uri.dfy` for the JavaScript built-ins they rely on):
  - `qidFromUri`.
  - `parseWktPoint`. Its unanchored regular expression is modelled as a leftmost, greedy scan, and a lemma proves the scan equivalent to the pattern's meaning.
  - `commonsImageUrl`. `encodeURIComponent` is modelled as UTF-8 percent-encoding, with a decoder that inverts it and, like `decodeURIComponent`, refuses bad escapes, overlong forms and surrogates.
  - `Number(...)` and `String(...)` on the decimal numerals the server meets, as exact decimals plus NaN.
  - `String.prototype.trim` and `padStart`. Strings are sequences of Unicode characters, and `padStart` measures them the way JavaScript does, in UTF-16 code units: a character above U+FFFF counts as two.
- **Parameters, keys and queries** (`params.dfy`, `queries.dfy`):
  - the trimmed and zero-padded `iso3`;
  - the clamped `limit` and `minSitelinks`;
  - the `^Q\d+$` gate;
  - the three cache-key templates;
  - the three SPARQL templates, kept as string concatenation.
- **Result normalisation and the routes** (`records.dfy`, `handlers.dfy`):
  - the country and detail records, built from the first binding row;
  - the places loop, with its `seen` set and its skip rules, as a method that is proved equal to a de-duplication function;
  - each route, as a pure function of the raw parameters, the cache map, the clock readings and the query service's outcome. Each route also exists as a method over the cache object that is proved to compute the same response, query and new cache.

A SPARQL JSON result row (section 3 of the SPARQL 1.1 Query Results JSON Format) is a `map<string, string>` from variable name to the binding's `value`. A failed call to the query service is `Outcome.Failed(message)`.

The source reads `Date.now()` twice per route: once in `getCache` and once in `setCache`, after the query's `await`. The handlers therefore take two clock readings, `now` and `doneAt`.

The places record's `label` field is called `placeLabel` in Dafny, because `label` is a Dafny keyword.

Behaviours of the code worth noting, all modelled as written:

- A cache entry is live while its age is `<= 24h` (`server.js:31`), not `< 24h`.
- `iso3` is not checked to be digits before it is put into the SPARQL text (`server.js:89`, `98`, `132`, `143`). The model interpolates whatever the trimmed and padded parameter is.
- Requests that would send the same query do not always share a cache key. A non-numeric `minSitelinks` becomes NaN, and NaN fails `minSitelinks > 0`. So both NaN and `0` leave the filter out and send the same query. Their keys still differ (`minSitelinks=NaN` against `minSitelinks=0`). `Queries.NoFilterForNaNOrZero` and `Params.PlacesKeyIff` state both halves.
- The output field names are those of the code (`iso3`, `countryQid`, `wikidataUrl`, `meta`, `qid`, `lng`, `sitelinks`, …).

## Model

| member | source | states |
|---|---|---|
| Cache.Fetch | server.js:28-36 | `getCache` returns data exactly when the key holds an entry at most one day old, and then returns that entry's data and leaves the map alone; otherwise it returns null and the map minus that key |
| Cache.Store | server.js:38-40 | `setCache` maps the key to `{ts: now, data}`, adds no other key and leaves every other entry as it was |
| Cache.FetchHitIff | server.js:28-36 | a lookup hits exactly when the key is present and its age is at most `CACHE_TTL_MS`, and then returns the stored data |
| Cache.FetchKeepsOthers | server.js:28-36 | a lookup never adds keys and never changes or removes a key other than the one looked up |
| Cache.FetchIdempotent | server.js:28-36 | repeating a lookup at the same instant returns the same result and changes nothing more |
| Cache.FetchHitEarlier | server.js:31 | an entry that is live at `now` is live at every earlier instant |
| Cache.StoreThenFetch | server.js:31-40 | data stored at `at` is returned by every lookup up to and including `at + 24h`, which leaves the map unchanged |
| Cache.StoreThenExpire | server.js:31-40 | after more than 24h the lookup misses and deletes exactly that key |
| Cache.StoreKeepsOthers | server.js:38-40 | storing leaves every other key as it was |
| Cache.TtlCache.constructor | server.js:25 | the cache starts empty |
| Cache.TtlCache.Get | server.js:28-36 | a missing key gives null and no change; a live entry gives its data and no change; a stale entry gives null and only that key is deleted |
| Cache.TtlCache.Set | server.js:38-40 | only `key` changes, to `{ts: now, data}` |
| Text.Trim | server.js:89 | `trim` returns the slice of the input that starts right after its leading white space and is followed only by white space; the result neither starts nor ends with white space |
| Text.TrimIdempotent | server.js:89 | trimming twice is trimming once |
| Text.PadStart | server.js:89 | `padStart(w, c)` with a one-unit `c` measures in UTF-16 code units: it is as long as the longer of `w` and `s` in code units, ends with `s`, and is preceded only by `c` |
| Text.Utf16LengthConcat | server.js:89 | the UTF-16 length of a concatenation is the sum of the lengths |
| Text.NatToStringValue | server.js:59-60 | the decimal rendering of a width reads back as that width |
| Text.NatToStringInjective | server.js:59-60 | different widths render differently |
| Numbers.ToNumber | server.js:133-134 | `Number(s)` is 0 for a blank string, and NaN exactly when the trimmed text is not a decimal literal |
| Numbers.ToNumberDigits | server.js:133 | a digit string is read as the integer it spells |
| Numbers.InvalidNumerals | server.js:50-52 | `"-"` and `"1.2.3"` match `[-\d.]+` but are NaN |
| Numbers.SpellLex | server.js:50-51 | every well-formed decimal literal is lexed back from its own spelling |
| Numbers.Render | server.js:135 | `String(d)` of a finite number is non-empty, starts with `-` or a digit and ends with a digit |
| Numbers.RenderNumber | server.js:154-159 | a number interpolated into a template is `NaN` for NaN, and a non-empty text ending in a digit otherwise |
| Numbers.RenderRoundTrip | server.js:135 | `Number(String(x)) == x` for every number the model has, NaN included |
| Numbers.RenderInjective | server.js:135 | distinct numbers render as distinct text |
| Numbers.MinWith | server.js:133 | `Math.min(k, x)` keeps NaN, is never above `k`, is `x` when `x <= k`, and is `k` otherwise |
| Numbers.MaxWith | server.js:133-134 | `Math.max(k, x)` keeps NaN, is never below `k`, is `x` when `x >= k`, and is `k` otherwise |
| UriComponent.Encode | server.js:59-60 | `encodeURIComponent` output consists only of unreserved characters and `%` escapes |
| UriComponent.EncodeDigits | server.js:59 | `encodeURIComponent` is the identity on digit strings such as the width |
| UriComponent.DecodeEncode | server.js:60 | decoding the encoded file name gives the file name back |
| UriComponent.DecodeRejectsOverlongTwo | server.js:60 | `decodeURIComponent` throws on a text starting with the overlong lead byte `%C0` or `%C1` |
| UriComponent.EncodeInjective | server.js:60 | different file names give different encoded segments |
| Wikidata.QidFromUri | server.js:42-45 | the result is `""` or `Q` followed by one or more digits, and a non-empty result ends the URI right after a `/` |
| Wikidata.QidFromUriOfForm | server.js:42-45 | a URI `prefix + "/Q" + digits` gives exactly `"Q" + digits` |
| Wikidata.QidFromUriOtherwise | server.js:42-45 | a URI that cannot be split as `prefix + "/Q" + digits` gives `""` |
| Wikidata.MatchAtMeaning | server.js:48 | the greedy scan at a position succeeds with captures `x, y` exactly when `Point(x w y)`, with `x`, `y` in `[-\d.]+` and `w` in `\s+`, starts there |
| Wikidata.FindPoint | server.js:48 | the search returns the leftmost position where the pattern matches, or none when it matches nowhere |
| Wikidata.ParseWktPoint | server.js:47-54 | a text in which the pattern matches nowhere gives null; the match cases are stated by `ParseWktPointMatch` |
| Wikidata.ParseWktPointMatch | server.js:47-54 | for the leftmost match, the result is `{lat: Number(y), lon: Number(x)}` when both are numbers, and null when either is NaN |
| Wikidata.ParseWktPointNoMatch | server.js:48-49 | a text in which the pattern matches nowhere gives null |
| Wikidata.ParseWktPointNeedsDigit | server.js:47-54 | a text without a digit, such as `Point(NaN NaN)` or the empty string of an absent binding, gives null |
| Wikidata.WidthQuery | server.js:59-60 | the width suffix is `?width=` followed by the width's decimal digits |
| Wikidata.CommonsImageUrl | server.js:56-61 | the result is empty exactly for empty input; it always ends in `?width=<w>`; an input containing `Special:FilePath/` gets only that suffix appended |
| Wikidata.CommonsImageUrlOfName | server.js:60 | any other input becomes the Commons `Special:FilePath/` base, then a segment that decodes to the input, then `?width=<w>` |
| Wikidata.CommonsImageUrlExample | server.js:60 | `Example.jpg` at width 560 becomes `…/Special:FilePath/Example.jpg?width=560` |
| Params.NormalizeIso3 | server.js:89 | the code is as long as the longer of 3 and the trimmed input in UTF-16 code units, ends with the trimmed input, and is preceded only by zeros |
| Params.NormalizeIso3Idempotent | server.js:89 | normalising a normalised code changes nothing |
| Params.NormalizeIso3Keeps | server.js:89 | a code of three or more characters without outer white space is kept as it is |
| Params.NormalizeIso3Astral | server.js:89 | one character above U+FFFF is two code units long, so it gets a single leading zero |
| Params.QueryNumber | server.js:133-134 | an absent or empty parameter gives the default, and any other value gives `Number(value)` |
| Params.LimitOf | server.js:133 | `limit` is in [1, 60] when it is a number, is 30 when absent or empty, is clamped to 60 or 1 from outside, and is NaN exactly for a non-numeric parameter |
| Params.LimitClampHigh | server.js:133 | `limit=999` is served as 60 |
| Params.LimitClampLow | server.js:133 | `limit=0` is served as 1 |
| Params.MinSitelinksOf | server.js:134 | `minSitelinks` is never negative when it is a number, is 0 when absent or empty, and is NaN exactly for a non-numeric parameter |
| Params.QidParam | server.js:199-200 | the gate accepts exactly the ids whose trimmed form is `Q<digits>`, and passes on the trimmed form |
| Params.CountryKey | server.js:90 | the country key is `country:` followed by exactly the code |
| Params.PlacesKey | server.js:135 | the places key starts with `places:` |
| Params.DetailKey | server.js:202 | the detail key is `place:` followed by exactly the QID |
| Params.PlacesKeyIff | server.js:135 | two places keys are equal exactly when the code, the clamped limit and the clamped threshold are equal |
| Params.PlacesKeyInjective | server.js:135 | the places key determines the code, the limit and the threshold |
| Params.CountryKeyInjective | server.js:90 | the country key determines the code |
| Params.DetailKeyInjective | server.js:202 | the detail key determines the QID |
| Params.KeysDisjoint | server.js:135 | country, places and detail keys never collide |
| Queries.CountryQuery | server.js:96-105 | the code sits between the fixed head and the fixed tail of the country query |
| Queries.CountryQueryInjective | server.js:96-105 | different codes give different country queries |
| Queries.FilterClause | server.js:154 | the sitelink filter is present exactly when the threshold is a number above 0, and then ends with the rendered threshold |
| Queries.PlacesQuery | server.js:141-160 | the places query starts with the fixed head, the code and the fixed body, and ends with `LIMIT`, the rendered limit and the fixed end |
| Queries.PlacesQueryCodeInjective | server.js:141-160 | for the same limit and threshold, different codes give different places queries |
| Queries.PlacesQueryLimitInjective | server.js:159 | for the same code and threshold, different limits give different places queries |
| Queries.PlacesQueryThresholdInjective | server.js:154 | different positive thresholds give different places queries |
| Queries.NoFilterForNaNOrZero | server.js:154 | a NaN threshold and a threshold of 0 give the same places query |
| Queries.DetailQuery | server.js:207-229 | the QID is bound as `wd:<qid>` between the fixed head and the fixed tail |
| Queries.DetailQueryInjective | server.js:207-229 | different QIDs give different detail queries |
| Records.Field | server.js:109 | an absent binding reads as `""` |
| Records.OrElse | server.js:117-118 | the string fallback `v or d`: `d` exactly when `v` is empty |
| Records.FirstRow | server.js:108 | no bindings gives the empty row `{}` |
| Records.ImageOf | server.js:184 | the image is empty exactly when the binding is absent or empty, and otherwise ends with `?width=<w>` |
| Records.ListThumbnail | server.js:184 | a list thumbnail, when present, asks for width 560 |
| Records.CountryRecord | server.js:107-121 | the record carries the requested code, a well-formed or empty QID, non-empty capital and continent, and all defaults when there are no rows |
| Records.CountryUrlIsUri | server.js:109-115 | `wikidataUrl` is the country URI, so it is `""` when there is no URI (the `wikidata.org/wiki/` fallback cannot be reached) |
| Records.CountryDefaults | server.js:117-119 | capital and continent are the bound label or `"—"`; population is the bound value or `""` |
| Records.CountryFirstRowOnly | server.js:108 | only the first row affects the record |
| Records.DetailRecord | server.js:232-244 | a present image is a 760-pixel link, and no rows gives all fields `""` |
| Records.DetailFields | server.js:235-244 | each text field is its variable's value in the first row or `""`, and the image is empty exactly when unbound |
| Records.SitelinksOf | server.js:185 | an absent or empty sitelinks binding gives 0 |
| Records.PlaceEntry | server.js:169-188 | a row yields an entry exactly when its URI has a QID and its point parses, and the entry's QID is that QID |
| Records.PlacesOf | server.js:165-188 | the places are no more than the rows, and their QIDs are pairwise distinct |
| Records.PlaceEntryShape | server.js:169-187 | a row yields an entry exactly when its URI has a QID and its point parses; the entry's QID is that well-formed QID, its link is the URI, its label is non-empty and its image is a 560-pixel link or empty |
| Records.PlaceEntryDefaults | server.js:178-187 | label defaults to the QID, description to `""`, image is empty exactly when unbound, sitelinks defaults to 0, and `lat`/`lng` come from the parsed point |
| Records.PlaceEntryCases | server.js:169-174 | a row without a QID or with an unparseable point yields nothing |
| Records.VisitRow | server.js:169-187 | one iteration skips a row whose QID is empty or already seen, or whose point fails; otherwise it pushes the entry and adds its QID to `seen` |
| Records.NormalizePlaces | server.js:163-188 | the loop's output is the de-duplication of what each row yields, with `seen` equal to the QIDs pushed so far |
| Records.PlacesBound | server.js:165-188 | the list is never longer than the rows |
| Records.PlacesDistinct | server.js:171-176 | every emitted QID is well formed, and no QID is emitted twice |
| Records.PlacesSources | server.js:168-188 | the places are, in row order, exactly the entries of the first rows that yield each QID, so the output is a subsequence of the rows |
| Records.PlacesComplete | server.js:168-188 | every QID some row yields appears in the list |
| Records.LaterDuplicateEmitted | server.js:171-176 | a row whose point fails does not block a later row with the same QID, because `seen.add` comes after the point check |
| Handlers.ReadThrough | server.js:92-127 | a live entry is answered from the cache with no query; on a miss the query is sent and a success is stored under the key at `doneAt`; a failure answers 500 and stores nothing |
| Handlers.ReadThroughShape | server.js:92-127 | a route queries exactly on a miss and sends its own query; it answers an error exactly when that query failed, and then with status 500; it adds no key but its own |
| Handlers.ReadThroughKeepsOthers | server.js:92-123 | a request changes the cache only under its own key |
| Handlers.FailureNotCached | server.js:125-127 | a failed query answers 500 with the message and leaves no entry, so the next request queries again |
| Handlers.RepeatIsHit | server.js:31-40 | what a miss stored is served again, with no query, up to one day later |
| Handlers.RepeatAfterLifetime | server.js:31-33 | more than one day later the query is sent again |
| Handlers.DetailGate | server.js:199-200 | the detail route answers 400 exactly for an id whose trimmed form is not `Q<digits>`, with no query and no cache change |
| Handlers.DetailUsesTrimmedQid | server.js:199-202 | a valid id is looked up and queried by its trimmed form |
| Handlers.CountryUsesNormalizedCode | server.js:89-127 | the country route reads through the key and query of the normalised code: a hit answers the cached payload with no query, and a successful miss answers and stores at `doneAt` the country record built from the rows |
| Handlers.PlacesUsesClampedParams | server.js:132-191 | the places route reads through the key and query of the normalised code and clamped parameters: a hit answers the cached payload with no query, and a successful miss answers and stores at `doneAt` the de-duplicated places of the rows |
| Handlers.PlacesSameClamp | server.js:132-135 | places requests whose parameters normalise alike get the same response, query and cache |
| Handlers.PlacesDistinctKeys | server.js:132-135 | places requests whose parameters normalise differently use different keys |
| Handlers.ReadThroughWellTyped | server.js:123-124 | storing only payloads that fit their key keeps every cached entry fitting its key |
| Handlers.CountryKeepsWellTyped | server.js:88-128 | the country route keeps every cached entry fitting its key |
| Handlers.PlacesKeepsWellTyped | server.js:131-195 | the places route keeps every cached entry fitting its key |
| Handlers.DetailKeepsWellTyped | server.js:198-251 | the detail route keeps every cached entry fitting its key |
| Handlers.CountryHitIsCountry | server.js:92-93 | a country cache hit is a country record for the same code |
| Handlers.PlacesHitIsPlaces | server.js:137-138 | a places cache hit is a list with distinct QIDs |
| Handlers.DetailHitIsDetail | server.js:203-204 | a detail cache hit is a detail record |
| Handlers.CountryHandler | server.js:88-128 | the country route queries exactly when the normalised code's key has no live entry, sends the country query for that code, fails exactly when that query fails, and adds no key but its own |
| Handlers.PlacesHandler | server.js:131-195 | the places route queries exactly when the key of the normalised parameters has no live entry, sends the places query for them, fails exactly when that query fails, and adds no key but its own |
| Handlers.DetailHandler | server.js:198-251 | the detail route answers 400 exactly for an id whose trimmed form is not `Q<digits>`; any query it sends is the detail query of the trimmed id; it adds no key but that id's |
| Handlers.ServeCountry | server.js:88-128 | the country route run step by step over the cache object gives the response, query and cache of `CountryHandler` |
| Handlers.ServePlaces | server.js:131-195 | the places route with its row loop gives the response, query and cache of `PlacesHandler` |
| Handlers.ServeDetail | server.js:198-251 | the detail route gives the response, query and cache of `DetailHandler` |

## Left out

- Express setup, CORS, static files, the `/` and `/api/health` routes and `app.listen` (`server.js:1-21`, `85`, `253-255`). These are plumbing with no decisions.
- `wdqsQuery` (`server.js:63-82`) is a network call. Only its outcome is modelled, as the rows of `data?.results?.bindings` or a failure carrying the message the route reports. A missing `results.bindings` is the empty row list. Binding attributes other than `value` are not modelled.
- What the query service does with the SPARQL text is not modelled: ordering by `DESC(COALESCE(?sitelinks, 0))`, `LIMIT`, the `FILTER NOT EXISTS` exclusions, `SAMPLE` and `GROUP_CONCAT`. The code never re-sorts or re-checks these.
- `Date.now()` is not modelled. It becomes the parameters `now` (read by `getCache`) and `doneAt` (read by `setCache`).
- Concurrency between async handlers is not modelled. Each request is one atomic step, so two concurrent misses for the same key, each querying, are not represented.
- Serialising responses with `res.json` is not modelled. JSON renders NaN as `null`, which would apply to a non-numeric sitelinks value.
- `if (cached)` is read as "there is an entry". Every cached payload is an object or an array, and both are truthy in JavaScript.
- Express query parameters given more than once (arrays) are not modelled. `limit` and `minSitelinks` are optional strings.
- Numbers.ToNumber: exponent notation, `Infinity`, and hexadecimal, octal or binary literals are read as NaN. JavaScript reads them as numbers, for example `limit=1e2` is 100 and so is clamped to 60. Finite values are exact decimals, and IEEE-754 rounding and overflow are not modelled.
- Numbers.Render: always writes plain decimal notation. JavaScript switches to exponent notation for magnitudes of at least 1e21 or below 1e-6.
- UriComponent.Encode: strings are sequences of Unicode scalar values, so the `URIError` that `encodeURIComponent` throws on a lone surrogate cannot arise.
