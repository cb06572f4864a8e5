/**
 * Result normalisation: turning the rows of a SPARQL JSON result (one map
 * from variable name to value per solution) into the country record, the
 * list of places and the detail record that the server returns.
 */
module Records {
  import opened Wrappers
  import opened Text
  import opened Numbers
  import opened Wikidata

  /** One solution of a SPARQL JSON result: each bound variable's `value`. */
  type Row = map<string, string>

  /** `r.name?.value`, with an absent binding read as the empty string. */
  function Field(row: Row, name: string): (v: string)
    ensures name !in row ==> v == ""
  {
    if name in row then row[name] else ""
  }

  /** `v || d` on strings: the empty string is falsy. */
  function OrElse(v: string, d: string): (r: string)
    ensures v != "" ==> r == v
    ensures v == "" ==> r == d
  {
    if v == "" then d else v
  }

  /** `(bindings || [])[0] || {}`: the first row, or no bindings at all. */
  function FirstRow(rows: seq<Row>): (b: Row)
    ensures rows == [] ==> b == map[]
  {
    if rows == [] then map[] else rows[0]
  }

  /** `b.image?.value ? commonsImageUrl(b.image.value, width) : ""`. */
  function ImageOf(row: Row, width: nat): (r: string)
    ensures r == "" <==> Field(row, "image") == ""
    ensures r != "" ==> IsSuffix("?width=" + NatToString(width), r)
  {
    var v := Field(row, "image");
    if v != "" then CommonsImageUrl(v, width) else ""
  }

  /** The width of list thumbnails renders as `560`. */
  lemma ListWidth()
    ensures NatToString(560) == "560"
  {
    assert NatToString(56) == NatToString(5) + [DigitChar(6)];
  }

  /** The width of detail images renders as `760`. */
  lemma DetailWidth()
    ensures NatToString(760) == "760"
  {
    assert NatToString(76) == NatToString(7) + [DigitChar(6)];
  }

  /** A detail image, when there is one, asks for width 760. */
  lemma DetailThumbnail(row: Row)
    ensures ImageOf(row, 760) == "" || IsSuffix("?width=760", ImageOf(row, 760))
  {
    DetailWidth();
  }

  /** A list thumbnail, when there is one, asks for width 560. */
  lemma ListThumbnail(row: Row)
    ensures ImageOf(row, 560) == "" || IsSuffix("?width=560", ImageOf(row, 560))
  {
    ListWidth();
  }

  // ---- country record ----

  datatype Meta = Meta(capital: string, continent: string, population: string)

  datatype CountryInfo = CountryInfo(iso3: string, countryQid: string, wikidataUrl: string, meta: Meta)

  const WIKIDATA_WIKI := "https://www.wikidata.org/wiki/"

  /** The placeholder for a missing capital or continent. */
  const DASH := "—"

  /** The country record built from the first row of the result. */
  function CountryRecord(iso3: string, rows: seq<Row>): (r: CountryInfo)
    ensures r.iso3 == iso3
    ensures r.countryQid == "" || IsQid(r.countryQid)
    ensures r.countryQid != "" ==> IsSuffix("/" + r.countryQid, r.wikidataUrl)
    ensures r.meta.capital != "" && r.meta.continent != ""
    ensures rows == [] ==> r == CountryInfo(iso3, "", "", Meta(DASH, DASH, ""))
  {
    var b := FirstRow(rows);
    var uri := Field(b, "country");
    var countryQid := QidFromUri(uri);
    CountryInfo(
      iso3,
      countryQid,
      if uri != "" then uri else if countryQid != "" then WIKIDATA_WIKI + countryQid else "",
      Meta(OrElse(Field(b, "capitalLabel"), DASH), OrElse(Field(b, "continentLabel"), DASH), Field(b, "population")))
  }

  /**
   * The `wikidata.org/wiki/` fallback can never be taken: without a country
   * URI there is no QID, so the URL is always the URI itself, and empty
   * exactly when there is no URI.
   */
  lemma CountryUrlIsUri(iso3: string, rows: seq<Row>)
    ensures CountryRecord(iso3, rows).wikidataUrl == Field(FirstRow(rows), "country")
    ensures CountryRecord(iso3, rows).countryQid == QidFromUri(Field(FirstRow(rows), "country"))
  {
    assert QidFromUri("") == "";
  }

  /** Each field of the country record: the first row's value, or its default when absent or empty. */
  lemma CountryDefaults(iso3: string, rows: seq<Row>)
    ensures var b := FirstRow(rows); var m := CountryRecord(iso3, rows).meta;
      && (Field(b, "capitalLabel") == "" ==> m.capital == DASH)
      && (Field(b, "capitalLabel") != "" ==> m.capital == b["capitalLabel"])
      && (Field(b, "continentLabel") == "" ==> m.continent == DASH)
      && (Field(b, "continentLabel") != "" ==> m.continent == b["continentLabel"])
      && (m.population == "" <==> Field(b, "population") == "")
      && ("population" in b ==> m.population == b["population"])
  {
  }

  /** Only the first row matters. */
  lemma CountryFirstRowOnly(iso3: string, first: Row, rest: seq<Row>)
    ensures CountryRecord(iso3, [first] + rest) == CountryRecord(iso3, [first])
  {
  }

  // ---- detail record ----

  datatype PlaceDetail = PlaceDetail(
    types: string, website: string, inception: string, population: string,
    area: string, country: string, admin: string, image: string)

  /** The detail record built from the first row of the result. */
  function DetailRecord(rows: seq<Row>): (r: PlaceDetail)
    ensures r.image == "" || IsSuffix("?width=760", r.image)
    ensures rows == [] ==> r == PlaceDetail("", "", "", "", "", "", "", "")
  {
    var b := FirstRow(rows);
    DetailThumbnail(b);
    PlaceDetail(
      Field(b, "types"), Field(b, "website"), Field(b, "inception"), Field(b, "population"),
      Field(b, "area"), Field(b, "countryLabel"), Field(b, "adminLabel"), ImageOf(b, 760))
  }

  /** Each text field is the first row's value of its variable, or `""` when it is absent. */
  lemma DetailFields(rows: seq<Row>)
    ensures var b := FirstRow(rows); var d := DetailRecord(rows);
      && d.types == Field(b, "types") && d.website == Field(b, "website")
      && d.inception == Field(b, "inception") && d.population == Field(b, "population")
      && d.area == Field(b, "area") && d.country == Field(b, "countryLabel")
      && d.admin == Field(b, "adminLabel")
      && (d.image == "" <==> Field(b, "image") == "")
  {
  }

  // ---- places list ----

  datatype Place = Place(
    qid: string, placeLabel: string, desc: string, lat: Number, lng: Number,
    image: string, sitelinks: JsNumber, wikidataUrl: string)

  /** `r.sitelinks?.value ? Number(r.sitelinks.value) : 0`. */
  function SitelinksOf(row: Row): (r: JsNumber)
    ensures Field(row, "sitelinks") == "" ==> r == Finite(FromNat(0))
  {
    var v := Field(row, "sitelinks");
    if v != "" then ToNumber(v) else Finite(FromNat(0))
  }

  /** The entry pushed for a row whose QID and point were read. */
  function MakePlace(row: Row, qid: string, uri: string, pt: Point): Place {
    Place(qid, OrElse(Field(row, "placeLabel"), qid), Field(row, "placeDescription"),
      pt.lat, pt.lon, ImageOf(row, 560), SitelinksOf(row), uri)
  }

  /**
   * What one row contributes when its QID has not been seen: nothing when
   * its place URI has no QID or its coordinate does not parse.
   */
  function PlaceEntry(row: Row): (r: Option<Place>)
    ensures r.Some? <==> QidFromUri(Field(row, "place")) != "" && ParseWktPoint(Field(row, "coord")).Some?
    ensures r.Some? ==> r.value.qid == QidFromUri(Field(row, "place"))
  {
    var uri := Field(row, "place");
    var qid := QidFromUri(uri);
    if qid == "" then None
    else match ParseWktPoint(Field(row, "coord"))
      case None => None
      case Some(pt) => Some(MakePlace(row, qid, uri, pt))
  }

  /** The label, link and thumbnail of a pushed entry. */
  lemma MakePlaceShape(row: Row, qid: string, uri: string, pt: Point)
    ensures var p := MakePlace(row, qid, uri, pt);
      && p.qid == qid && p.wikidataUrl == uri && (qid != "" ==> p.placeLabel != "")
      && (p.image == "" || IsSuffix("?width=560", p.image))
  {
    ListThumbnail(row);
  }

  /**
   * A row yields an entry exactly when it has a QID and a point; the entry
   * has that QID, links to the place URI, has a label, and its image, if
   * any, is a 560-pixel thumbnail.
   */
  lemma PlaceEntryShape(row: Row)
    ensures var r := PlaceEntry(row);
      && (r.Some? <==> QidFromUri(Field(row, "place")) != "" && ParseWktPoint(Field(row, "coord")).Some?)
      && (r.Some? ==> r.value.qid == QidFromUri(Field(row, "place")) && IsQid(r.value.qid))
      && (r.Some? ==> r.value.wikidataUrl == Field(row, "place") && IsSuffix("/" + r.value.qid, r.value.wikidataUrl))
      && (r.Some? ==> r.value.placeLabel != "")
      && (r.Some? ==> r.value.image == "" || IsSuffix("?width=560", r.value.image))
  {
    var uri := Field(row, "place");
    var qid := QidFromUri(uri);
    var pt := ParseWktPoint(Field(row, "coord"));
    if qid != "" && pt.Some? {
      assert PlaceEntry(row) == Some(MakePlace(row, qid, uri, pt.value));
      MakePlaceShape(row, qid, uri, pt.value);
    }
  }

  /** The defaults of an emitted entry. */
  lemma PlaceEntryDefaults(row: Row)
    requires PlaceEntry(row).Some?
    ensures var p := PlaceEntry(row).value;
      && (Field(row, "placeLabel") == "" ==> p.placeLabel == p.qid)
      && (Field(row, "placeLabel") != "" ==> p.placeLabel == row["placeLabel"])
      && p.desc == Field(row, "placeDescription")
      && (Field(row, "image") == "" <==> p.image == "")
      && (Field(row, "sitelinks") == "" ==> p.sitelinks == Finite(FromNat(0)))
      && ParseWktPoint(Field(row, "coord")) == Some(Point(p.lat, p.lng))
  {
  }

  /** The QIDs of a list of places: the `seen` set. */
  function QidsOf(places: seq<Place>): set<string> {
    set i | 0 <= i < |places| :: places[i].qid
  }

  /**
   * The loop's de-duplication over what each row yields: an entry is kept
   * unless an entry with its QID was kept before it.
   */
  function Dedup(es: seq<Option<Place>>): seq<Place>
    decreases |es|
  {
    if es == [] then []
    else
      var done := Dedup(es[..|es| - 1]);
      match es[|es| - 1]
      case Some(p) => if p.qid in QidsOf(done) then done else done + [p]
      case None => done
  }

  /** What each row yields on its own. */
  function EntriesOf(rows: seq<Row>): (es: seq<Option<Place>>)
    ensures |es| == |rows| && forall i :: 0 <= i < |rows| ==> es[i] == PlaceEntry(rows[i])
  {
    seq(|rows|, i requires 0 <= i < |rows| => PlaceEntry(rows[i]))
  }

  /** The list the loop builds from the rows. */
  function PlacesOf(rows: seq<Row>): (ps: seq<Place>)
    ensures |ps| <= |rows|
    ensures forall i, j :: 0 <= i < j < |ps| ==> ps[i].qid != ps[j].qid
  {
    DedupBound(EntriesOf(rows));
    DedupDistinct(EntriesOf(rows));
    Dedup(EntriesOf(rows))
  }

  /** One more entry: the step of the loop. */
  lemma DedupSnoc(es: seq<Option<Place>>, e: Option<Place>)
    ensures Dedup(es + [e]) ==
      match e
      case Some(p) => if p.qid in QidsOf(Dedup(es)) then Dedup(es) else Dedup(es) + [p]
      case None => Dedup(es)
  {
    assert (es + [e])[..|es|] == es;
  }

  /** Appending a place adds exactly its QID to the seen set. */
  lemma QidsOfSnoc(places: seq<Place>, p: Place)
    ensures QidsOf(places + [p]) == QidsOf(places) + {p.qid}
  {
    assert forall j :: 0 <= j < |places| ==> (places + [p])[j] == places[j];
    assert (places + [p])[|places|] == p;
  }

  /**
   * The `for…of` loop over the rows: each row goes through `VisitRow`, and
   * the list built so far is always the de-duplication of the rows seen so far.
   */
  method NormalizePlaces(rows: seq<Row>) returns (places: seq<Place>)
    ensures places == PlacesOf(rows)
  {
    ghost var es := EntriesOf(rows);
    var seen: set<string> := {};
    places := [];
    for i := 0 to |rows|
      invariant places == Dedup(es[..i])
      invariant seen == QidsOf(places)
    {
      DedupSnoc(es[..i], es[i]);
      TakeOneMore(es, i);
      places, seen := VisitRow(places, seen, rows[i]);
    }
    assert es[..|rows|] == es;
  }

  /** A prefix one element longer. */
  lemma TakeOneMore<T>(s: seq<T>, i: nat)
    requires i < |s|
    ensures s[..i + 1] == s[..i] + [s[i]]
  {
  }

  /**
   * The body of the loop for one row: skip it when it has no QID or one
   * already in `seen`, or when its point does not parse; otherwise add the
   * QID to `seen` and push the entry.
   */
  method VisitRow(places: seq<Place>, seen: set<string>, r: Row) returns (places': seq<Place>, seen': set<string>)
    requires seen == QidsOf(places)
    ensures seen' == QidsOf(places')
    ensures places' == match PlaceEntry(r)
      case Some(p) => if p.qid in seen then places else places + [p]
      case None => places
  {
    var placeUri := Field(r, "place");
    var qid := QidFromUri(placeUri);
    PlaceEntryCases(r);
    if qid == "" || qid in seen {
      return places, seen;
    }
    var p := ParseWktPoint(Field(r, "coord"));
    if p.None? {
      return places, seen;
    }
    var place := MakePlace(r, qid, placeUri, p.value);
    QidsOfSnoc(places, place);
    return places + [place], seen + {qid};
  }

  /** The three outcomes of a row, in the terms the loop tests them. */
  lemma PlaceEntryCases(row: Row)
    ensures QidFromUri(Field(row, "place")) == "" ==> PlaceEntry(row) == None
    ensures ParseWktPoint(Field(row, "coord")).None? ==> PlaceEntry(row) == None
    ensures PlaceEntry(row).Some? ==> PlaceEntry(row).value.qid == QidFromUri(Field(row, "place"))
    ensures QidFromUri(Field(row, "place")) != "" && ParseWktPoint(Field(row, "coord")).Some? ==>
      PlaceEntry(row) == Some(MakePlace(row, QidFromUri(Field(row, "place")), Field(row, "place"), ParseWktPoint(Field(row, "coord")).value))
  {
  }

  /** The de-duplicated list is never longer than its input. */
  lemma {:induction false} DedupBound(es: seq<Option<Place>>)
    ensures |Dedup(es)| <= |es|
  {
    if es != [] {
      DedupBound(es[..|es| - 1]);
    }
  }

  /** The list is never longer than the rows. */
  lemma PlacesBound(rows: seq<Row>)
    ensures |PlacesOf(rows)| <= |rows|
  {
    DedupBound(EntriesOf(rows));
  }

  /** No QID is kept twice, and every kept QID is one of an entry. */
  lemma {:induction false} DedupDistinct(es: seq<Option<Place>>)
    ensures forall i :: 0 <= i < |Dedup(es)| ==> Some(Dedup(es)[i]) in es
    ensures forall i, j :: 0 <= i < j < |Dedup(es)| ==> Dedup(es)[i].qid != Dedup(es)[j].qid
  {
    if es != [] {
      var init := es[..|es| - 1];
      var done := Dedup(init);
      DedupDistinct(init);
      assert forall e :: e in init ==> e in es;
      match es[|es| - 1]
      case Some(p) =>
        if p.qid !in QidsOf(done) {
          var ps := done + [p];
          assert ps[|done|] == p && Some(p) == es[|es| - 1];
          forall i | 0 <= i < |ps| ensures Some(ps[i]) in es {
            if i < |done| {
              assert ps[i] == done[i];
            }
          }
          forall i, j | 0 <= i < j < |ps| ensures ps[i].qid != ps[j].qid {
            assert ps[i] == done[i];
            if j == |done| {
              assert ps[i].qid in QidsOf(done);
            } else {
              assert ps[j] == done[j];
            }
          }
        }
      case None =>
    }
  }

  /** Every emitted QID is a well-formed QID, and no QID is emitted twice. */
  lemma PlacesDistinct(rows: seq<Row>)
    ensures forall i :: 0 <= i < |PlacesOf(rows)| ==> IsQid(PlacesOf(rows)[i].qid)
    ensures forall i, j :: 0 <= i < j < |PlacesOf(rows)| ==> PlacesOf(rows)[i].qid != PlacesOf(rows)[j].qid
  {
    var es := EntriesOf(rows);
    DedupDistinct(es);
    forall i | 0 <= i < |PlacesOf(rows)| ensures IsQid(PlacesOf(rows)[i].qid) {
      var k :| 0 <= k < |es| && es[k] == Some(PlacesOf(rows)[i]);
      PlaceEntryShape(rows[k]);
    }
  }

  /**
   * Entry `i` is the first entry with its QID: the one the list keeps for
   * that QID.
   */
  ghost predicate FirstEligible(es: seq<Option<Place>>, i: int) {
    0 <= i < |es| && es[i].Some?
    && forall k :: 0 <= k < i ==> es[k].None? || es[k].value.qid != es[i].value.qid
  }

  /** The position of the entry each kept place comes from. */
  ghost function SourcesOf(es: seq<Option<Place>>): seq<nat>
    decreases |es|
  {
    if es == [] then []
    else
      var done := SourcesOf(es[..|es| - 1]);
      match es[|es| - 1]
      case Some(p) => if p.qid in QidsOf(Dedup(es[..|es| - 1])) then done else done + [|es| - 1]
      case None => done
  }

  /** Every entry has its QID among the kept places. */
  lemma {:induction false} DedupComplete(es: seq<Option<Place>>, i: nat)
    requires i < |es| && es[i].Some?
    ensures es[i].value.qid in QidsOf(Dedup(es))
  {
    var init := es[..|es| - 1];
    var done := Dedup(init);
    assert QidsOf(done) <= QidsOf(Dedup(es)) by {
      forall q | q in QidsOf(done) ensures q in QidsOf(Dedup(es)) {
        var j :| 0 <= j < |done| && done[j].qid == q;
        assert Dedup(es)[j] == done[j];
      }
    }
    if i < |es| - 1 {
      assert init[i] == es[i];
      DedupComplete(init, i);
    } else {
      var p := es[i].value;
      if p.qid !in QidsOf(done) {
        assert Dedup(es)[|done|] == p;
      }
    }
  }

  /**
   * The kept places are exactly the first entry of each QID, in order:
   * place `j` is entry `SourcesOf(es)[j]`, the positions increase, and they
   * are exactly the first entries.
   */
  lemma {:induction false} DedupSources(es: seq<Option<Place>>)
    ensures |SourcesOf(es)| == |Dedup(es)|
    ensures forall j :: 0 <= j < |SourcesOf(es)| ==> SourcesOf(es)[j] < |es| && es[SourcesOf(es)[j]] == Some(Dedup(es)[j])
    ensures forall j, k :: 0 <= j < k < |SourcesOf(es)| ==> SourcesOf(es)[j] < SourcesOf(es)[k]
    ensures forall i :: FirstEligible(es, i) <==> i in SourcesOf(es)
  {
    SourcesPositions(es);
    if es != [] {
      var n := |es| - 1;
      var init := es[..n];
      var ps, src := Dedup(init), SourcesOf(init);
      DedupSources(init);
      assert forall i :: 0 <= i < n ==> init[i] == es[i];
      assert forall i :: 0 <= i < n ==> (FirstEligible(es, i) <==> FirstEligible(init, i));
      match es[n]
      case None =>
        assert !FirstEligible(es, n);
      case Some(p) =>
        if p.qid in QidsOf(ps) {
          var j :| 0 <= j < |ps| && ps[j].qid == p.qid;
          assert es[src[j]].value.qid == p.qid;
          assert !FirstEligible(es, n);
        } else {
          forall k | 0 <= k < n && es[k].Some?
            ensures es[k].value.qid != p.qid
          {
            DedupComplete(init, k);
          }
          assert FirstEligible(es, n);
        }
    }
  }

  /** Place `j` is entry `SourcesOf(es)[j]`, and the positions increase. */
  lemma {:induction false} SourcesPositions(es: seq<Option<Place>>)
    ensures |SourcesOf(es)| == |Dedup(es)|
    ensures forall j :: 0 <= j < |SourcesOf(es)| ==> SourcesOf(es)[j] < |es| && es[SourcesOf(es)[j]] == Some(Dedup(es)[j])
    ensures forall j, k :: 0 <= j < k < |SourcesOf(es)| ==> SourcesOf(es)[j] < SourcesOf(es)[k]
  {
    if es != [] {
      var n := |es| - 1;
      var init := es[..n];
      SourcesPositions(init);
      assert forall i :: 0 <= i < n ==> init[i] == es[i];
    }
  }

  /**
   * The places are exactly what the first row yielding each QID yields, in
   * row order: the list is a subsequence of the rows' entries.
   */
  lemma PlacesSources(rows: seq<Row>)
    ensures |SourcesOf(EntriesOf(rows))| == |PlacesOf(rows)|
    ensures forall j :: 0 <= j < |SourcesOf(EntriesOf(rows))| ==>
      SourcesOf(EntriesOf(rows))[j] < |rows| && PlaceEntry(rows[SourcesOf(EntriesOf(rows))[j]]) == Some(PlacesOf(rows)[j])
    ensures forall j, k :: 0 <= j < k < |SourcesOf(EntriesOf(rows))| ==> SourcesOf(EntriesOf(rows))[j] < SourcesOf(EntriesOf(rows))[k]
    ensures forall i :: FirstEligible(EntriesOf(rows), i) <==> i in SourcesOf(EntriesOf(rows))
  {
    DedupSources(EntriesOf(rows));
  }

  /** Every row that yields an entry has its QID among the places. */
  lemma PlacesComplete(rows: seq<Row>, i: nat)
    requires i < |rows| && PlaceEntry(rows[i]).Some?
    ensures PlaceEntry(rows[i]).value.qid in QidsOf(PlacesOf(rows))
  {
    DedupComplete(EntriesOf(rows), i);
  }

  /**
   * The QID is remembered only after the point parsed: a row whose point
   * does not parse does not stop a later row with the same QID.
   */
  lemma LaterDuplicateEmitted(bad: Row, good: Row)
    requires QidFromUri(Field(bad, "place")) == QidFromUri(Field(good, "place"))
    requires ParseWktPoint(Field(bad, "coord")).None?
    requires PlaceEntry(good).Some?
    ensures PlacesOf([bad, good]) == [PlaceEntry(good).value]
  {
    PlaceEntryCases(bad);
    EntriesOfPair(bad, good);
    DedupSkipsNone(PlaceEntry(good).value);
  }

  lemma EntriesOfPair(a: Row, b: Row)
    ensures EntriesOf([a, b]) == [PlaceEntry(a), PlaceEntry(b)]
  {
  }

  /** A row that yields nothing leaves no trace. */
  lemma DedupSkipsNone(p: Place)
    ensures Dedup([None, Some(p)]) == [p]
  {
    var none: Option<Place> := None;
    DedupSnoc([none], Some(p));
    DedupSnoc([], none);
    assert [] + [none] == [none];
    assert [none] + [Some(p)] == [none, Some(p)];
  }
}
