/**
 * The SPARQL text each route sends to the Wikidata query service. The
 * templates are kept character for character, with line ends as single
 * line feeds. What the service does with them is not part of this model.
 */
module Queries {
  import opened Text
  import opened Numbers

  // Each template is kept one source line per constant (long literals are costly to reason about).

  // The country query around the code.
  const COUNTRY_HEAD_1 := "\n"
  const COUNTRY_HEAD_2 := "      SELECT ?country ?capitalLabel ?continentLabel ?population WHERE {\n"
  const COUNTRY_HEAD_3 := "        ?country wdt:P299 \""
  const COUNTRY_HEAD := COUNTRY_HEAD_1 + COUNTRY_HEAD_2 + COUNTRY_HEAD_3
  const COUNTRY_TAIL_1 := "\" .\n"
  const COUNTRY_TAIL_2 := "        OPTIONAL { ?country wdt:P36 ?capital . }\n"
  const COUNTRY_TAIL_3 := "        OPTIONAL { ?country wdt:P30 ?continent . }\n"
  const COUNTRY_TAIL_4 := "        OPTIONAL { ?country wdt:P1082 ?population . }\n"
  const COUNTRY_TAIL_5 := "        SERVICE wikibase:label { bd:serviceParam wikibase:language \"nl,en\". }\n"
  const COUNTRY_TAIL_6 := "      }\n"
  const COUNTRY_TAIL_7 := "      LIMIT 1\n"
  const COUNTRY_TAIL_8 := "    "
  const COUNTRY_TAIL := COUNTRY_TAIL_1 + COUNTRY_TAIL_2 + COUNTRY_TAIL_3 + COUNTRY_TAIL_4 + COUNTRY_TAIL_5 + COUNTRY_TAIL_6 + COUNTRY_TAIL_7 + COUNTRY_TAIL_8

  /** The country query: the code goes between the quotes of the `wdt:P299` pattern. */
  function CountryQuery(iso3: string): (q: string)
    ensures IsPrefix(COUNTRY_HEAD + iso3, q) && IsSuffix(iso3 + COUNTRY_TAIL, q)
  {
    JoinEnds(COUNTRY_HEAD, iso3, COUNTRY_TAIL);
    COUNTRY_HEAD + iso3 + COUNTRY_TAIL
  }

  // The places query around the code, the filter line and the limit.
  const PLACES_HEAD_1 := "\n"
  const PLACES_HEAD_2 := "      SELECT ?place ?placeLabel ?placeDescription ?coord ?image ?sitelinks WHERE {\n"
  const PLACES_HEAD_3 := "        ?country wdt:P299 \""
  const PLACES_HEAD := PLACES_HEAD_1 + PLACES_HEAD_2 + PLACES_HEAD_3
  const PLACES_BODY_1 := "\" .\n"
  const PLACES_BODY_2 := "\n"
  const PLACES_BODY_3 := "        ?place wdt:P625 ?coord .\n"
  const PLACES_BODY_4 := "        ?place wdt:P17 ?country .\n"
  const PLACES_BODY_5 := "\n"
  const PLACES_BODY_6 := "        FILTER NOT EXISTS { ?place wdt:P31 wd:Q4167836 }   # Wikimedia disambiguation\n"
  const PLACES_BODY_7 := "        FILTER NOT EXISTS { ?place wdt:P31 wd:Q13406463 }  # Wikimedia list article\n"
  const PLACES_BODY_8 := "\n"
  const PLACES_BODY_9 := "        OPTIONAL { ?place wdt:P18 ?image . }\n"
  const PLACES_BODY_10 := "        OPTIONAL { ?place wikibase:sitelinks ?sitelinks . }\n"
  const PLACES_BODY_11 := "\n"
  const PLACES_BODY_12 := "        "
  const PLACES_BODY := PLACES_BODY_1 + PLACES_BODY_2 + PLACES_BODY_3 + PLACES_BODY_4 + PLACES_BODY_5 + PLACES_BODY_6 + PLACES_BODY_7 + PLACES_BODY_8 + PLACES_BODY_9 + PLACES_BODY_10 + PLACES_BODY_11 + PLACES_BODY_12
  const PLACES_TAIL_1 := "\n"
  const PLACES_TAIL_2 := "\n"
  const PLACES_TAIL_3 := "        SERVICE wikibase:label { bd:serviceParam wikibase:language \"nl,en\". }\n"
  const PLACES_TAIL_4 := "      }\n"
  const PLACES_TAIL_5 := "      ORDER BY DESC(COALESCE(?sitelinks, 0))\n"
  const PLACES_TAIL_6 := "      LIMIT "
  const PLACES_TAIL := PLACES_TAIL_1 + PLACES_TAIL_2 + PLACES_TAIL_3 + PLACES_TAIL_4 + PLACES_TAIL_5 + PLACES_TAIL_6
  const PLACES_END := "\n    "

  const FILTER_HEAD := "FILTER(COALESCE(?sitelinks, 0) >= "

  /** The sitelink filter line: present exactly when the threshold is a number above zero. */
  function FilterClause(minSitelinks: JsNumber): (f: string)
    ensures f != "" <==> minSitelinks.Finite? && Above(minSitelinks.value, 0)
    ensures f != "" ==> IsPrefix(FILTER_HEAD, f) && IsSuffix(RenderNumber(minSitelinks) + ")", f)
  {
    if minSitelinks.Finite? && Above(minSitelinks.value, 0) then
      FILTER_HEAD + RenderNumber(minSitelinks) + ")"
    else ""
  }

  /** The places query over the already rendered limit. */
  function PlacesQueryOf(iso3: string, filter: string, limit: string): string {
    PLACES_HEAD + iso3 + PLACES_BODY + filter + PLACES_TAIL + limit + PLACES_END
  }

  /** The places query: the code, the optional filter and the `LIMIT` line. */
  function PlacesQuery(iso3: string, limit: JsNumber, minSitelinks: JsNumber): (q: string)
    ensures IsPrefix(PLACES_HEAD + iso3 + PLACES_BODY, q)
    ensures IsSuffix(PLACES_TAIL + RenderNumber(limit) + PLACES_END, q)
  {
    var f, l := FilterClause(minSitelinks), RenderNumber(limit);
    PlacesQueryOfParts(iso3, f, l);
    JoinEnds(PLACES_HEAD + iso3 + PLACES_BODY, f, PLACES_TAIL + l + PLACES_END);
    PlacesQueryOf(iso3, f, l)
  }

  /** The leading parts of three joined texts are its prefixes, the trailing parts its suffixes. */
  lemma JoinEnds(a: string, b: string, c: string)
    ensures IsPrefix(a, a + b + c) && IsSuffix(c, a + b + c)
    ensures IsPrefix(a + b, a + b + c) && IsSuffix(b + c, a + b + c)
  {
    assert (a + b + c)[..|a|] == a;
    assert (a + b + c)[|a + b|..] == c;
    assert (a + b + c)[..|a + b|] == a + b;
    assert (a + b + c)[|a|..] == b + c;
  }

  // The detail query around the QID.
  const DETAIL_HEAD_1 := "\n"
  const DETAIL_HEAD_2 := "      SELECT\n"
  const DETAIL_HEAD_3 := "        (GROUP_CONCAT(DISTINCT ?typeLabel; separator=\", \") AS ?types)\n"
  const DETAIL_HEAD_4 := "        (SAMPLE(?website) AS ?website)\n"
  const DETAIL_HEAD_5 := "        (SAMPLE(?inception) AS ?inception)\n"
  const DETAIL_HEAD_6 := "        (SAMPLE(?population) AS ?population)\n"
  const DETAIL_HEAD_7 := "        (SAMPLE(?area) AS ?area)\n"
  const DETAIL_HEAD_8 := "        (SAMPLE(?countryLabel) AS ?countryLabel)\n"
  const DETAIL_HEAD_9 := "        (SAMPLE(?adminLabel) AS ?adminLabel)\n"
  const DETAIL_HEAD_10 := "        (SAMPLE(?image) AS ?image)\n"
  const DETAIL_HEAD_11 := "      WHERE {\n"
  const DETAIL_HEAD_12 := "        BIND(wd:"
  const DETAIL_HEAD := DETAIL_HEAD_1 + DETAIL_HEAD_2 + DETAIL_HEAD_3 + DETAIL_HEAD_4 + DETAIL_HEAD_5 + DETAIL_HEAD_6 + DETAIL_HEAD_7 + DETAIL_HEAD_8 + DETAIL_HEAD_9 + DETAIL_HEAD_10 + DETAIL_HEAD_11 + DETAIL_HEAD_12
  const DETAIL_TAIL_1 := " AS ?place)\n"
  const DETAIL_TAIL_2 := "        OPTIONAL { ?place wdt:P31 ?type . }\n"
  const DETAIL_TAIL_3 := "        OPTIONAL { ?place wdt:P856 ?website . }\n"
  const DETAIL_TAIL_4 := "        OPTIONAL { ?place wdt:P571 ?inception . }\n"
  const DETAIL_TAIL_5 := "        OPTIONAL { ?place wdt:P1082 ?population . }\n"
  const DETAIL_TAIL_6 := "        OPTIONAL { ?place wdt:P2046 ?area . }\n"
  const DETAIL_TAIL_7 := "        OPTIONAL { ?place wdt:P17 ?country . }\n"
  const DETAIL_TAIL_8 := "        OPTIONAL { ?place wdt:P131 ?admin . }\n"
  const DETAIL_TAIL_9 := "        OPTIONAL { ?place wdt:P18 ?image . }\n"
  const DETAIL_TAIL_10 := "        SERVICE wikibase:label { bd:serviceParam wikibase:language \"nl,en\". }\n"
  const DETAIL_TAIL_11 := "      }\n"
  const DETAIL_TAIL_12 := "    "
  const DETAIL_TAIL := DETAIL_TAIL_1 + DETAIL_TAIL_2 + DETAIL_TAIL_3 + DETAIL_TAIL_4 + DETAIL_TAIL_5 + DETAIL_TAIL_6 + DETAIL_TAIL_7 + DETAIL_TAIL_8 + DETAIL_TAIL_9 + DETAIL_TAIL_10 + DETAIL_TAIL_11 + DETAIL_TAIL_12

  /** The detail query: the QID is bound as `wd:<qid>`. */
  function DetailQuery(qid: string): (q: string)
    ensures IsPrefix(DETAIL_HEAD + qid, q) && IsSuffix(qid + DETAIL_TAIL, q)
  {
    JoinEnds(DETAIL_HEAD, qid, DETAIL_TAIL);
    DETAIL_HEAD + qid + DETAIL_TAIL
  }

  /** A text between a fixed head and a fixed tail is determined by the whole. */
  lemma {:induction false} MiddleDetermined(head: string, x: string, y: string, tail: string)
    requires head + x + tail == head + y + tail
    ensures x == y
  {
    assert x == (head + x + tail)[|head|..|head| + |x|];
  }

  /** Different codes give different country queries. */
  lemma CountryQueryInjective(a: string, b: string)
    requires CountryQuery(a) == CountryQuery(b)
    ensures a == b
  {
    MiddleDetermined(COUNTRY_HEAD, a, b, COUNTRY_TAIL);
  }

  /** Different QIDs give different detail queries. */
  lemma DetailQueryInjective(a: string, b: string)
    requires DetailQuery(a) == DetailQuery(b)
    ensures a == b
  {
    MiddleDetermined(DETAIL_HEAD, a, b, DETAIL_TAIL);
  }

  /** The places query read as head, code and the rest, and as the rest, limit and end. */
  lemma PlacesQueryOfParts(iso3: string, filter: string, limit: string)
    ensures PlacesQueryOf(iso3, filter, limit) == PLACES_HEAD + iso3 + (PLACES_BODY + filter + PLACES_TAIL + limit + PLACES_END)
    ensures PlacesQueryOf(iso3, filter, limit) == (PLACES_HEAD + iso3 + PLACES_BODY) + filter + (PLACES_TAIL + limit + PLACES_END)
    ensures PlacesQueryOf(iso3, filter, limit) == (PLACES_HEAD + iso3 + PLACES_BODY + filter + PLACES_TAIL) + limit + PLACES_END
  {
    Regroup(PLACES_HEAD, iso3, PLACES_BODY, filter, PLACES_TAIL, limit, PLACES_END);
  }

  /** The three ways of cutting a seven-part text used above. */
  lemma Regroup(a: string, b: string, c: string, d: string, e: string, f: string, g: string)
    ensures a + b + c + d + e + f + g == a + b + (c + d + e + f + g)
    ensures a + b + c + d + e + f + g == (a + b + c) + d + (e + f + g)
    ensures a + b + c + d + e + f + g == (a + b + c + d + e) + f + g
  {
  }

  /** For the same limit and threshold, different codes give different places queries. */
  lemma PlacesQueryCodeInjective(a: string, b: string, limit: JsNumber, minSitelinks: JsNumber)
    requires PlacesQuery(a, limit, minSitelinks) == PlacesQuery(b, limit, minSitelinks)
    ensures a == b
  {
    var f, l := FilterClause(minSitelinks), RenderNumber(limit);
    PlacesQueryOfParts(a, f, l);
    PlacesQueryOfParts(b, f, l);
    MiddleDetermined(PLACES_HEAD, a, b, PLACES_BODY + f + PLACES_TAIL + l + PLACES_END);
  }

  /** For the same code and threshold, different limits give different places queries. */
  lemma PlacesQueryLimitInjective(iso3: string, l1: JsNumber, l2: JsNumber, minSitelinks: JsNumber)
    requires PlacesQuery(iso3, l1, minSitelinks) == PlacesQuery(iso3, l2, minSitelinks)
    ensures l1 == l2
  {
    var f := FilterClause(minSitelinks);
    PlacesQueryOfParts(iso3, f, RenderNumber(l1));
    PlacesQueryOfParts(iso3, f, RenderNumber(l2));
    MiddleDetermined(PLACES_HEAD + iso3 + PLACES_BODY + f + PLACES_TAIL, RenderNumber(l1), RenderNumber(l2), PLACES_END);
    RenderInjective(l1, l2);
  }

  /** For the same code and limit, different positive thresholds give different places queries. */
  lemma PlacesQueryThresholdInjective(iso3: string, limit: JsNumber, m1: JsNumber, m2: JsNumber)
    requires m1.Finite? && Above(m1.value, 0) && m2.Finite? && Above(m2.value, 0)
    requires PlacesQuery(iso3, limit, m1) == PlacesQuery(iso3, limit, m2)
    ensures m1 == m2
  {
    var l := RenderNumber(limit);
    PlacesQueryOfParts(iso3, FilterClause(m1), l);
    PlacesQueryOfParts(iso3, FilterClause(m2), l);
    MiddleDetermined(PLACES_HEAD + iso3 + PLACES_BODY, FilterClause(m1), FilterClause(m2), PLACES_TAIL + l + PLACES_END);
    var r1, r2 := RenderNumber(m1), RenderNumber(m2);
    assert FilterClause(m1) == FILTER_HEAD + r1 + ")";
    assert FilterClause(m2) == FILTER_HEAD + r2 + ")";
    MiddleDetermined(FILTER_HEAD, r1, r2, ")");
    RenderInjective(m1, m2);
  }

  /**
   * A threshold that is not a number and a threshold of zero both leave the
   * filter out, so the two requests send the same query.
   */
  lemma NoFilterForNaNOrZero(iso3: string, limit: JsNumber)
    ensures PlacesQuery(iso3, limit, NaN) == PlacesQuery(iso3, limit, Finite(FromNat(0)))
    ensures FilterClause(NaN) == "" && FilterClause(Finite(FromNat(0))) == ""
  {
    assert !Above(FromNat(0), 0);
  }
}
