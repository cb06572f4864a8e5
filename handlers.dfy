/**
 * The three API routes as functions of the raw request parameters, the
 * cache contents, the clock and what the query service answers, and as
 * methods over the cache object that compute the same thing step by step.
 *
 * `now` is the clock when the route looks the key up and `doneAt` the clock
 * when it stores the result: the source reads `Date.now()` at both points.
 */
module Handlers {
  import opened Wrappers
  import opened Text
  import opened Numbers
  import opened Wikidata
  import opened Cache
  import opened Records
  import opened Params
  import opened Queries

  /** What a route caches and answers with. */
  datatype Payload =
    | CountryData(info: CountryInfo)
    | PlacesData(places: seq<Place>)
    | DetailData(detail: PlaceDetail)

  /**
   * The outcome of a call that may throw: for the query service, the rows
   * of its result or the text the route reports (`String(e?.message || e)`).
   */
  datatype Outcome<T> = Ok(value: T) | Failed(message: string)

  /** `res.json(body)`, or `res.status(status).json({ error: message })`. */
  datatype Response = Json(body: Payload) | Error(status: nat, message: string)

  type Entries = map<string, Entry<Payload>>

  /** The response, the query sent (none when the cache answered) and the cache afterwards. */
  datatype Served = Served(response: Response, query: Option<string>, entries: Entries)

  const INVALID_QID := "Ongeldige QID"

  /** The cache holds an entry for `key` that is not stale at `now`. */
  predicate FreshAt(entries: Entries, key: string, now: int) {
    key in entries && !Expired(entries[key], now)
  }

  /**
   * The shape every route shares: look the key up; on a hit answer from
   * the cache without a query; on a miss send the query, and store and
   * answer the result, or answer 500 and store nothing.
   */
  function ReadThrough(entries: Entries, key: string, now: int, query: string, answer: Outcome<Payload>, doneAt: int): (s: Served)
    ensures FreshAt(entries, key, now) ==> s == Served(Json(entries[key].data), None, entries)
    ensures !FreshAt(entries, key, now) && answer.Ok? ==>
      s == Served(Json(answer.value), Some(query), entries[key := Entry(doneAt, answer.value)])
    ensures !FreshAt(entries, key, now) && answer.Failed? ==>
      s == Served(Error(500, answer.message), Some(query), entries - {key})
  {
    var (cached, after) := Fetch(entries, key, now);
    if cached.Some? then Served(Json(cached.value), None, after)
    else
      assert after == entries - {key};
      match answer
      case Ok(p) =>
        assert Store(after, key, doneAt, p) == entries[key := Entry(doneAt, p)];
        Served(Json(p), Some(query), Store(after, key, doneAt, p))
      case Failed(m) => Served(Error(500, m), Some(query), after)
  }

  // ---- the routes ----

  /** The rows turned into a payload; a failure is passed on. */
  function CountryAnswer(iso3: string, upstream: Outcome<seq<Row>>): Outcome<Payload> {
    match upstream
    case Ok(rows) => Ok(CountryData(CountryRecord(iso3, rows)))
    case Failed(m) => Failed(m)
  }

  function PlacesAnswer(upstream: Outcome<seq<Row>>): Outcome<Payload> {
    match upstream
    case Ok(rows) => Ok(PlacesData(PlacesOf(rows)))
    case Failed(m) => Failed(m)
  }

  function DetailAnswer(upstream: Outcome<seq<Row>>): Outcome<Payload> {
    match upstream
    case Ok(rows) => Ok(DetailData(DetailRecord(rows)))
    case Failed(m) => Failed(m)
  }

  /** `GET /api/country/:iso3`. */
  function CountryHandler(rawIso3: string, entries: Entries, now: int, upstream: Outcome<seq<Row>>, doneAt: int): (s: Served)
    ensures var key := CountryKey(NormalizeIso3(rawIso3));
      && (s.query.Some? <==> !FreshAt(entries, key, now))
      && (s.query.Some? ==> s.query.value == CountryQuery(NormalizeIso3(rawIso3)))
      && (s.response.Error? <==> s.query.Some? && upstream.Failed?)
      && s.entries.Keys <= entries.Keys + {key}
  {
    var iso3 := NormalizeIso3(rawIso3);
    ReadThroughShape(entries, CountryKey(iso3), now, CountryQuery(iso3), CountryAnswer(iso3, upstream), doneAt);
    ReadThrough(entries, CountryKey(iso3), now, CountryQuery(iso3), CountryAnswer(iso3, upstream), doneAt)
  }

  /** `GET /api/places/:iso3?limit=&minSitelinks=`. */
  function PlacesHandler(rawIso3: string, rawLimit: Option<string>, rawMinSitelinks: Option<string>,
                         entries: Entries, now: int, upstream: Outcome<seq<Row>>, doneAt: int): (s: Served)
    ensures var iso3, limit, minSitelinks := NormalizeIso3(rawIso3), LimitOf(rawLimit), MinSitelinksOf(rawMinSitelinks);
      var key := PlacesKey(iso3, limit, minSitelinks);
      && (s.query.Some? <==> !FreshAt(entries, key, now))
      && (s.query.Some? ==> s.query.value == PlacesQuery(iso3, limit, minSitelinks))
      && (s.response.Error? <==> s.query.Some? && upstream.Failed?)
      && s.entries.Keys <= entries.Keys + {key}
  {
    var iso3 := NormalizeIso3(rawIso3);
    var limit := LimitOf(rawLimit);
    var minSitelinks := MinSitelinksOf(rawMinSitelinks);
    var key, query := PlacesKey(iso3, limit, minSitelinks), PlacesQuery(iso3, limit, minSitelinks);
    ReadThroughShape(entries, key, now, query, PlacesAnswer(upstream), doneAt);
    ReadThrough(entries, key, now, query, PlacesAnswer(upstream), doneAt)
  }

  /** `GET /api/place/:qid`: an id that is not `Q<digits>` is refused before the cache is consulted. */
  function DetailHandler(rawQid: string, entries: Entries, now: int, upstream: Outcome<seq<Row>>, doneAt: int): (s: Served)
    ensures s.response == Error(400, INVALID_QID) <==> !IsQid(Trim(rawQid))
    ensures s.query.Some? ==> IsQid(Trim(rawQid)) && s.query.value == DetailQuery(Trim(rawQid))
    ensures s.entries.Keys <= entries.Keys + {DetailKey(Trim(rawQid))}
  {
    match QidParam(rawQid)
    case None => Served(Error(400, INVALID_QID), None, entries)
    case Some(qid) =>
      ReadThroughShape(entries, DetailKey(qid), now, DetailQuery(qid), DetailAnswer(upstream), doneAt);
      ReadThrough(entries, DetailKey(qid), now, DetailQuery(qid), DetailAnswer(upstream), doneAt)
  }

  /**
   * What every route's answer looks like: a query exactly on a miss, and it
   * is the route's own; an error exactly when that query failed; no key
   * added but the route's own.
   */
  lemma ReadThroughShape(entries: Entries, key: string, now: int, query: string, answer: Outcome<Payload>, doneAt: int)
    ensures var s := ReadThrough(entries, key, now, query, answer, doneAt);
      && (s.query.Some? <==> !FreshAt(entries, key, now))
      && (s.query.Some? ==> s.query.value == query)
      && (s.response.Error? <==> s.query.Some? && answer.Failed?)
      && (s.response.Error? ==> s.response.status == 500)
      && s.entries.Keys <= entries.Keys + {key}
  {
  }

  // ---- read-through behaviour ----

  /** A request changes the cache only under its own key. */
  lemma ReadThroughKeepsOthers(entries: Entries, key: string, now: int, query: string, answer: Outcome<Payload>, doneAt: int, other: string)
    requires other != key
    ensures other in ReadThrough(entries, key, now, query, answer, doneAt).entries <==> other in entries
    ensures other in entries ==> ReadThrough(entries, key, now, query, answer, doneAt).entries[other] == entries[other]
  {
  }

  /** A failed query leaves no entry behind, so the next request for the key queries again. */
  lemma FailureNotCached(entries: Entries, key: string, now: int, query: string, message: string, doneAt: int,
                         later: int, query': string, answer': Outcome<Payload>, doneAt': int)
    ensures var s := ReadThrough(entries, key, now, query, Failed(message), doneAt);
      && (s.response.Error? <==> !FreshAt(entries, key, now))
      && (s.response.Error? ==> s.response == Error(500, message))
      && (s.response.Error? ==> ReadThrough(s.entries, key, later, query', answer', doneAt').query == Some(query'))
  {
  }

  /**
   * What a miss stored is answered from the cache, without a query, by any
   * request up to one lifetime after it was stored.
   */
  lemma RepeatIsHit(entries: Entries, key: string, now: int, query: string, p: Payload, doneAt: int,
                    later: int, query': string, answer': Outcome<Payload>, doneAt': int)
    requires !FreshAt(entries, key, now)
    requires later - doneAt <= TTL_MS
    ensures var s := ReadThrough(entries, key, now, query, Ok(p), doneAt);
      ReadThrough(s.entries, key, later, query', answer', doneAt') == Served(Json(p), None, s.entries)
  {
  }

  /** More than one lifetime after it was stored, the entry is dropped and the query is sent again. */
  lemma RepeatAfterLifetime(entries: Entries, key: string, now: int, query: string, p: Payload, doneAt: int,
                            later: int, query': string, answer': Outcome<Payload>, doneAt': int)
    requires !FreshAt(entries, key, now)
    requires later - doneAt > TTL_MS
    ensures var s := ReadThrough(entries, key, now, query, Ok(p), doneAt);
      ReadThrough(s.entries, key, later, query', answer', doneAt').query == Some(query')
  {
  }

  // ---- the QID gate ----

  /**
   * The detail route answers 400 exactly when the trimmed id is not
   * `Q<digits>`, and then sends no query and leaves the cache as it was.
   */
  lemma DetailGate(rawQid: string, entries: Entries, now: int, upstream: Outcome<seq<Row>>, doneAt: int)
    ensures var s := DetailHandler(rawQid, entries, now, upstream, doneAt);
      && (s.response == Error(400, INVALID_QID) <==> !IsQid(Trim(rawQid)))
      && (!IsQid(Trim(rawQid)) ==> s.query.None? && s.entries == entries)
  {
  }

  /** A valid id is looked up under `place:<trimmed id>` and queried as `wd:<trimmed id>`. */
  lemma DetailUsesTrimmedQid(rawQid: string, entries: Entries, now: int, upstream: Outcome<seq<Row>>, doneAt: int)
    requires IsQid(Trim(rawQid))
    ensures DetailHandler(rawQid, entries, now, upstream, doneAt)
      == ReadThrough(entries, DetailKey(Trim(rawQid)), now, DetailQuery(Trim(rawQid)), DetailAnswer(upstream), doneAt)
  {
  }

  /**
   * The country route reads through the key of the normalised code: a hit
   * answers the cached payload, and a successful miss answers and stores the
   * country record built from the rows.
   */
  lemma CountryUsesNormalizedCode(rawIso3: string, entries: Entries, now: int, upstream: Outcome<seq<Row>>, doneAt: int)
    ensures var iso3 := NormalizeIso3(rawIso3);
      CountryHandler(rawIso3, entries, now, upstream, doneAt)
        == ReadThrough(entries, CountryKey(iso3), now, CountryQuery(iso3), CountryAnswer(iso3, upstream), doneAt)
  {
  }

  /**
   * The places route reads through the key of the normalised parameters: a
   * hit answers the cached payload, and a successful miss answers and stores
   * the de-duplicated places of the rows.
   */
  lemma PlacesUsesClampedParams(rawIso3: string, rawLimit: Option<string>, rawMinSitelinks: Option<string>,
                                entries: Entries, now: int, upstream: Outcome<seq<Row>>, doneAt: int)
    ensures var iso3, limit, minSitelinks := NormalizeIso3(rawIso3), LimitOf(rawLimit), MinSitelinksOf(rawMinSitelinks);
      PlacesHandler(rawIso3, rawLimit, rawMinSitelinks, entries, now, upstream, doneAt)
        == ReadThrough(entries, PlacesKey(iso3, limit, minSitelinks), now, PlacesQuery(iso3, limit, minSitelinks),
                       PlacesAnswer(upstream), doneAt)
  {
  }

  // ---- parameters that clamp alike ----

  /**
   * Requests whose parameters normalise alike are the same request: they
   * share the key, the query and so the cached result.
   */
  lemma PlacesSameClamp(i1: string, l1: Option<string>, m1: Option<string>, i2: string, l2: Option<string>, m2: Option<string>,
                        entries: Entries, now: int, upstream: Outcome<seq<Row>>, doneAt: int)
    requires NormalizeIso3(i1) == NormalizeIso3(i2) && LimitOf(l1) == LimitOf(l2) && MinSitelinksOf(m1) == MinSitelinksOf(m2)
    ensures PlacesHandler(i1, l1, m1, entries, now, upstream, doneAt) == PlacesHandler(i2, l2, m2, entries, now, upstream, doneAt)
  {
  }

  /** Conversely, requests that normalise differently never share a cache entry. */
  lemma PlacesDistinctKeys(i1: string, l1: Option<string>, m1: Option<string>, i2: string, l2: Option<string>, m2: Option<string>)
    requires NormalizeIso3(i1) != NormalizeIso3(i2) || LimitOf(l1) != LimitOf(l2) || MinSitelinksOf(m1) != MinSitelinksOf(m2)
    ensures PlacesKey(NormalizeIso3(i1), LimitOf(l1), MinSitelinksOf(m1)) != PlacesKey(NormalizeIso3(i2), LimitOf(l2), MinSitelinksOf(m2))
  {
    PlacesKeyIff(NormalizeIso3(i1), LimitOf(l1), MinSitelinksOf(m1), NormalizeIso3(i2), LimitOf(l2), MinSitelinksOf(m2));
  }

  // ---- what the cache holds under each key ----

  /**
   * The payload fits the key it is stored under: a country record under
   * `country:` and its own code, a list of places with distinct QIDs under
   * `places:`, and a detail record under `place:` and a valid QID.
   */
  predicate Fits(key: string, p: Payload) {
    match p
    case CountryData(info) => key == CountryKey(info.iso3)
    case PlacesData(ps) =>
      IsPrefix("places:", key) && forall i, j :: 0 <= i < j < |ps| ==> ps[i].qid != ps[j].qid
    case DetailData(_) => IsPrefix("place:", key) && IsQid(key[6..])
  }

  predicate WellTyped(entries: Entries) {
    forall k :: k in entries ==> Fits(k, entries[k].data)
  }

  /** A read-through keeps the invariant when what it may store fits the key. */
  lemma ReadThroughWellTyped(entries: Entries, key: string, now: int, query: string, answer: Outcome<Payload>, doneAt: int)
    requires WellTyped(entries)
    requires answer.Ok? ==> Fits(key, answer.value)
    ensures WellTyped(ReadThrough(entries, key, now, query, answer, doneAt).entries)
  {
  }

  lemma CountryKeepsWellTyped(rawIso3: string, entries: Entries, now: int, upstream: Outcome<seq<Row>>, doneAt: int)
    requires WellTyped(entries)
    ensures WellTyped(CountryHandler(rawIso3, entries, now, upstream, doneAt).entries)
  {
    var iso3 := NormalizeIso3(rawIso3);
    ReadThroughWellTyped(entries, CountryKey(iso3), now, CountryQuery(iso3), CountryAnswer(iso3, upstream), doneAt);
  }

  lemma PlacesKeepsWellTyped(rawIso3: string, rawLimit: Option<string>, rawMinSitelinks: Option<string>,
                             entries: Entries, now: int, upstream: Outcome<seq<Row>>, doneAt: int)
    requires WellTyped(entries)
    ensures WellTyped(PlacesHandler(rawIso3, rawLimit, rawMinSitelinks, entries, now, upstream, doneAt).entries)
  {
    var iso3 := NormalizeIso3(rawIso3);
    var limit := LimitOf(rawLimit);
    var minSitelinks := MinSitelinksOf(rawMinSitelinks);
    var key := PlacesKey(iso3, limit, minSitelinks);
    PlacesKeyOfHead(iso3, RenderNumber(limit), RenderNumber(minSitelinks));
    if upstream.Ok? {
      PlacesDistinct(upstream.value);
    }
    ReadThroughWellTyped(entries, key, now, PlacesQuery(iso3, limit, minSitelinks), PlacesAnswer(upstream), doneAt);
  }

  lemma DetailKeepsWellTyped(rawQid: string, entries: Entries, now: int, upstream: Outcome<seq<Row>>, doneAt: int)
    requires WellTyped(entries)
    ensures WellTyped(DetailHandler(rawQid, entries, now, upstream, doneAt).entries)
  {
    var r := QidParam(rawQid);
    if r.Some? {
      var qid := r.value;
      DetailUsesTrimmedQid(rawQid, entries, now, upstream, doneAt);
      DetailFits(qid, upstream);
      ReadThroughWellTyped(entries, DetailKey(qid), now, DetailQuery(qid), DetailAnswer(upstream), doneAt);
    } else {
      assert DetailHandler(rawQid, entries, now, upstream, doneAt).entries == entries;
    }
  }

  lemma DetailFits(qid: string, upstream: Outcome<seq<Row>>)
    requires IsQid(qid)
    ensures DetailAnswer(upstream).Ok? ==> Fits(DetailKey(qid), DetailAnswer(upstream).value)
  {
    assert DetailKey(qid)[6..] == qid;
    assert DetailKey(qid)[..6] == "place:";
  }

  /** A country request answered from the cache gets a country record for its own code. */
  lemma CountryHitIsCountry(entries: Entries, iso3: string, now: int)
    requires WellTyped(entries) && FreshAt(entries, CountryKey(iso3), now)
    ensures entries[CountryKey(iso3)].data.CountryData?
    ensures entries[CountryKey(iso3)].data.info.iso3 == iso3
  {
    var key := CountryKey(iso3);
    assert key[0] == 'c';
    match entries[key].data
    case CountryData(info) => CountryKeyInjective(info.iso3, iso3);
    case PlacesData(_) =>
    case DetailData(_) =>
  }

  /** A places request answered from the cache gets a list of places with distinct QIDs. */
  lemma PlacesHitIsPlaces(entries: Entries, iso3: string, limit: JsNumber, minSitelinks: JsNumber, now: int)
    requires WellTyped(entries) && FreshAt(entries, PlacesKey(iso3, limit, minSitelinks), now)
    ensures entries[PlacesKey(iso3, limit, minSitelinks)].data.PlacesData?
    ensures var ps := entries[PlacesKey(iso3, limit, minSitelinks)].data.places;
      forall i, j :: 0 <= i < j < |ps| ==> ps[i].qid != ps[j].qid
  {
    var key := PlacesKey(iso3, limit, minSitelinks);
    PlacesKeyOfHead(iso3, RenderNumber(limit), RenderNumber(minSitelinks));
    assert key[5] == key[..7][5] == 's';
    match entries[key].data
    case CountryData(info) => KeysDisjoint(info.iso3, iso3, limit, minSitelinks, "");
    case PlacesData(_) =>
    case DetailData(_) => assert "place:"[5] == ':';
  }

  /** A detail request answered from the cache gets a detail record. */
  lemma DetailHitIsDetail(entries: Entries, qid: string, now: int)
    requires WellTyped(entries) && FreshAt(entries, DetailKey(qid), now)
    ensures entries[DetailKey(qid)].data.DetailData?
  {
    var key := DetailKey(qid);
    assert key[0] == 'p' && key[5] == ':';
    match entries[key].data
    case CountryData(info) => KeysDisjoint(info.iso3, "", NaN, NaN, qid);
    case PlacesData(_) => assert "places:"[5] == 's';
    case DetailData(_) =>
  }

  // ---- the routes over the cache object ----

  /** The country route, step by step over the shared cache. */
  method ServeCountry(cache: TtlCache<Payload>, rawIso3: string, now: int, upstream: Outcome<seq<Row>>, doneAt: int)
    returns (response: Response, query: Option<string>)
    modifies cache
    ensures Served(response, query, cache.entries) == CountryHandler(rawIso3, old(cache.entries), now, upstream, doneAt)
  {
    var iso3 := NormalizeIso3(rawIso3);
    var key := CountryKey(iso3);
    CountryUsesNormalizedCode(rawIso3, cache.entries, now, upstream, doneAt);
    var cached := cache.Get(key, now);
    if cached.Some? {
      return Json(cached.value), None;
    }
    query := Some(CountryQuery(iso3));
    match upstream
    case Failed(m) =>
      response := Error(500, m);
    case Ok(rows) =>
      var out := CountryData(CountryRecord(iso3, rows));
      cache.Set(key, out, doneAt);
      response := Json(out);
  }

  /** The places route, step by step over the shared cache, with the row loop. */
  method ServePlaces(cache: TtlCache<Payload>, rawIso3: string, rawLimit: Option<string>, rawMinSitelinks: Option<string>,
                     now: int, upstream: Outcome<seq<Row>>, doneAt: int)
    returns (response: Response, query: Option<string>)
    modifies cache
    ensures Served(response, query, cache.entries)
      == PlacesHandler(rawIso3, rawLimit, rawMinSitelinks, old(cache.entries), now, upstream, doneAt)
  {
    var iso3 := NormalizeIso3(rawIso3);
    var limit := LimitOf(rawLimit);
    var minSitelinks := MinSitelinksOf(rawMinSitelinks);
    var key, text := PlacesKey(iso3, limit, minSitelinks), PlacesQuery(iso3, limit, minSitelinks);
    PlacesUsesClampedParams(rawIso3, rawLimit, rawMinSitelinks, cache.entries, now, upstream, doneAt);
    var cached := cache.Get(key, now);
    if cached.Some? {
      return Json(cached.value), None;
    }
    query := Some(text);
    match upstream
    case Failed(m) =>
      response := Error(500, m);
    case Ok(rows) =>
      var places := NormalizePlaces(rows);
      cache.Set(key, PlacesData(places), doneAt);
      response := Json(PlacesData(places));
  }

  /** The detail route, step by step over the shared cache. */
  method ServeDetail(cache: TtlCache<Payload>, rawQid: string, now: int, upstream: Outcome<seq<Row>>, doneAt: int)
    returns (response: Response, query: Option<string>)
    modifies cache
    ensures Served(response, query, cache.entries) == DetailHandler(rawQid, old(cache.entries), now, upstream, doneAt)
  {
    var qid := Trim(rawQid);
    if !IsQid(qid) {
      return Error(400, INVALID_QID), None;
    }
    DetailUsesTrimmedQid(rawQid, cache.entries, now, upstream, doneAt);
    var key := DetailKey(qid);
    var cached := cache.Get(key, now);
    if cached.Some? {
      return Json(cached.value), None;
    }
    query := Some(DetailQuery(qid));
    match upstream
    case Failed(m) =>
      response := Error(500, m);
    case Ok(rows) =>
      var out := DetailData(DetailRecord(rows));
      cache.Set(key, out, doneAt);
      response := Json(out);
  }
}
