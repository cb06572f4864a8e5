/**
 * Request parameters and cache keys of the three API routes: the padded
 * `iso3` code, the clamped `limit` and `minSitelinks`, the `Q<digits>`
 * gate on the detail route, and the key strings under which results are
 * cached.
 */
module Params {
  import opened Wrappers
  import opened Text
  import opened Numbers
  import opened Wikidata

  /**
   * `String(iso3 || "").trim().padStart(3, "0")`: widths are JavaScript
   * string lengths, counted in UTF-16 code units.
   */
  function NormalizeIso3(raw: string): (r: string)
    ensures Utf16Length(r) == if Utf16Length(Trim(raw)) >= 3 then Utf16Length(Trim(raw)) else 3
    ensures IsSuffix(Trim(raw), r)
    ensures AllChar(r[..|r| - |Trim(raw)|], '0')
  {
    PadStart(Trim(raw), 3, '0')
  }

  /** Normalising a normalised code changes nothing: it has no outer space and is wide enough. */
  lemma {:induction false} NormalizeIso3Idempotent(raw: string)
    ensures NormalizeIso3(NormalizeIso3(raw)) == NormalizeIso3(raw)
  {
    var t := Trim(raw);
    var r := NormalizeIso3(raw);
    if Utf16Length(t) < 3 {
      assert |r| > |t|;
      assert r[0] == '0';
      if t != [] {
        assert r[|r| - 1] == t[|t| - 1];
      }
    } else {
      assert r == t;
    }
    TrimIdentity(r);
  }

  /** A code that is already three characters or longer, without outer space, is kept as it is. */
  lemma {:induction false} NormalizeIso3Keeps(raw: string)
    requires |raw| >= 3 && !IsSpace(raw[0]) && !IsSpace(raw[|raw| - 1])
    ensures NormalizeIso3(raw) == raw
  {
    TrimIdentity(raw);
  }

  /** A lone character above U+FFFF is two code units long, so it gets one `0`, not two. */
  lemma NormalizeIso3Astral(s: string)
    requires |s| == 1 && Utf16Width(s[0]) == 2
    ensures NormalizeIso3(s) == "0" + s
  {
    TrimIdentity(s);
    Utf16LengthOne(s);
    assert Repeat('0', 1) == "0";
  }

  /** `Number(raw || default)`: an absent or empty parameter gives the default. */
  function QueryNumber(raw: Option<string>, default: nat): (r: JsNumber)
    ensures raw.None? || raw == Some("") ==> r == Finite(FromNat(default))
    ensures raw.Some? && raw.value != "" ==> r == ToNumber(raw.value)
  {
    if raw.None? || raw.value == "" then Finite(FromNat(default)) else ToNumber(raw.value)
  }

  const DEFAULT_LIMIT: nat := 30
  const MAX_LIMIT: nat := 60

  /**
   * `Math.max(1, Math.min(60, Number(limit || 30)))`: within [1, 60] when
   * it is a number, 30 when absent or empty, and NaN exactly when the
   * parameter is not a number.
   */
  function LimitOf(raw: Option<string>): (r: JsNumber)
    ensures r.Finite? ==> !Below(r.value, 1) && !Above(r.value, MAX_LIMIT)
    ensures r.NaN? <==> raw.Some? && raw.value != "" && ToNumber(raw.value).NaN?
    ensures raw.None? || raw == Some("") ==> r == Finite(FromNat(DEFAULT_LIMIT))
    ensures var x := QueryNumber(raw, DEFAULT_LIMIT);
      && (x.Finite? && Above(x.value, MAX_LIMIT) ==> r == Finite(FromNat(MAX_LIMIT)))
      && (x.Finite? && Below(x.value, 1) ==> r == Finite(FromNat(1)))
      && (x.Finite? && !Below(x.value, 1) && !Above(x.value, MAX_LIMIT) ==> r == x)
  {
    MaxWith(1, MinWith(MAX_LIMIT, QueryNumber(raw, DEFAULT_LIMIT)))
  }

  lemma LimitOfNat(raw: string, n: nat)
    requires raw != "" && ToNumber(raw) == Finite(FromNat(n))
    ensures LimitOf(Some(raw)) == Finite(FromNat(if n > MAX_LIMIT then MAX_LIMIT else if n < 1 then 1 else n))
  {
  }

  lemma Value999(big: string)
    requires big == "999"
    ensures AllDigits(big) && DigitsValue(big) == 999
  {
    assert big[..1][..0] == [];
    assert DigitsValue(big[..1]) == 9;
    assert big[..2][..1] == big[..1];
    assert DigitsValue(big[..2]) == 99;
    assert big[..|big| - 1] == big[..2];
  }

  /** `limit=999` is served as 60. */
  lemma LimitClampHigh(big: string)
    requires big == "999"
    ensures LimitOf(Some(big)) == Finite(FromNat(60))
  {
    Value999(big);
    ToNumberDigits(big);
    LimitOfNat(big, 999);
  }

  /** `limit=0` is served as 1. */
  lemma LimitClampLow(zero: string)
    requires zero == "0"
    ensures LimitOf(Some(zero)) == Finite(FromNat(1))
  {
    assert zero[..0] == "";
    ToNumberDigits(zero);
    LimitOfNat(zero, 0);
  }

  /**
   * `Math.max(0, Number(minSitelinks || 0))`: never negative when it is a
   * number, 0 when absent or empty, and NaN exactly when the parameter is
   * not a number.
   */
  function MinSitelinksOf(raw: Option<string>): (r: JsNumber)
    ensures r.Finite? ==> !Below(r.value, 0)
    ensures r.NaN? <==> raw.Some? && raw.value != "" && ToNumber(raw.value).NaN?
    ensures raw.None? || raw == Some("") ==> r == Finite(FromNat(0))
    ensures var x := QueryNumber(raw, 0);
      && (x.Finite? && Below(x.value, 0) ==> r == Finite(FromNat(0)))
      && (x.Finite? && !Below(x.value, 0) ==> r == x)
  {
    MaxWith(0, QueryNumber(raw, 0))
  }

  /** `/^Q\d+$/.test(String(qid || "").trim())`: the trimmed id when it passes the gate. */
  function QidParam(raw: string): (r: Option<string>)
    ensures r.Some? <==> IsQid(Trim(raw))
    ensures r.Some? ==> r.value == Trim(raw)
  {
    var q := Trim(raw);
    if IsQid(q) then Some(q) else None
  }

  // ---- cache keys ----

  /** `country:<iso3>`. */
  function CountryKey(iso3: string): (k: string)
    ensures |k| == 8 + |iso3| && k[..8] == "country:" && k[8..] == iso3
  {
    "country:" + iso3
  }

  /** `places:<iso3>:limit=<limit>:minSitelinks=<minSitelinks>`, the numbers as rendered. */
  function PlacesKey(iso3: string, limit: JsNumber, minSitelinks: JsNumber): (k: string)
    ensures |k| >= 7 && k[..7] == "places:"
  {
    PlacesKeyOfHead(iso3, RenderNumber(limit), RenderNumber(minSitelinks));
    PlacesKeyOf(iso3, RenderNumber(limit), RenderNumber(minSitelinks))
  }

  /** The places key over the two rendered numbers. */
  function PlacesKeyOf(iso3: string, limit: string, minSitelinks: string): string {
    "places:" + iso3 + ":" + "limit=" + limit + ":" + "minSitelinks=" + minSitelinks
  }

  /** `place:<qid>`. */
  function DetailKey(qid: string): (k: string)
    ensures |k| == 6 + |qid| && k[..6] == "place:" && k[6..] == qid
  {
    "place:" + qid
  }

  predicate NoColon(s: string) {
    forall i :: 0 <= i < |s| ==> s[i] != ':'
  }

  /** A rendered number is made of a sign, digits and a point, or is `NaN`. */
  lemma {:induction false} RenderNoColon(x: JsNumber)
    ensures NoColon(RenderNumber(x))
  {
    match x
    case NaN =>
    case Finite(d) =>
      var n := NumeralOf(d);
      var point := if n.point then "." else "";
      RenderIsSpelling(d);
      DigitsNoColon(n.intDigits);
      DigitsNoColon(n.fracDigits);
      FieldNoColon(SignText(n.sign), n.intDigits);
      FieldNoColon(SignText(n.sign) + n.intDigits, point);
      FieldNoColon(SignText(n.sign) + n.intDigits + point, n.fracDigits);
  }

  lemma DigitsNoColon(s: string)
    requires AllDigits(s)
    ensures NoColon(s)
  {
  }

  /** When the text after a `:` has no colon, no longer head ends in a `:` at the same place. */
  lemma {:induction false} LastColonNotLater(a: string, b: string, c: string, d: string)
    requires NoColon(b)
    requires a + ":" + b == c + ":" + d
    ensures |c| <= |a|
  {
    var s := a + ":" + b;
    assert forall j :: |a| < j < |s| ==> s[j] == b[j - |a| - 1];
    assert s[|c|] == ':';
  }

  /** Text before the last `:` and after it are determined by the whole. */
  lemma {:induction false} SplitAtLastColon(a: string, b: string, c: string, d: string)
    requires NoColon(b) && NoColon(d)
    requires a + ":" + b == c + ":" + d
    ensures a == c && b == d
  {
    LastColonNotLater(a, b, c, d);
    LastColonNotLater(c, d, a, b);
    var s := a + ":" + b;
    assert a == s[..|a|] == c;
    assert b == s[|a| + 1..] == d;
  }

  /** A field label followed by text without a colon has no colon either. */
  lemma {:induction false} FieldNoColon(name: string, x: string)
    requires NoColon(name) && NoColon(x)
    ensures NoColon(name + x)
  {
    var t := name + x;
    assert forall i :: |name| <= i < |t| ==> t[i] == x[i - |name|];
  }

  /** A common head cancels. */
  lemma {:induction false} HeadCancel(h: string, x: string, y: string)
    requires h + x == h + y
    ensures x == y
  {
    assert x == (h + x)[|h|..];
  }

  /**
   * A key `h x : f y : g z` whose last two fields are colon-free determines
   * `x`, `y` and `z`.
   */
  lemma {:induction false} ThreeFieldsInjective(h: string, f: string, g: string,
                                                x1: string, y1: string, z1: string,
                                                x2: string, y2: string, z2: string)
    requires NoColon(f + y1) && NoColon(f + y2) && NoColon(g + z1) && NoColon(g + z2)
    requires h + x1 + ":" + f + y1 + ":" + g + z1 == h + x2 + ":" + f + y2 + ":" + g + z2
    ensures x1 == x2 && y1 == y2 && z1 == z2
  {
    assert h + x1 + ":" + f + y1 + ":" + g + z1 == ((h + x1) + ":" + (f + y1)) + ":" + (g + z1);
    assert h + x2 + ":" + f + y2 + ":" + g + z2 == ((h + x2) + ":" + (f + y2)) + ":" + (g + z2);
    SplitAtLastColon((h + x1) + ":" + (f + y1), g + z1, (h + x2) + ":" + (f + y2), g + z2);
    SplitAtLastColon(h + x1, f + y1, h + x2, f + y2);
    HeadCancel(h, x1, x2);
    HeadCancel(f, y1, y2);
    HeadCancel(g, z1, z2);
  }

  /** Over colon-free renderings, the places key determines its three parts. */
  lemma {:induction false} PlacesKeyOfInjective(i1: string, l1: string, m1: string, i2: string, l2: string, m2: string)
    requires NoColon(l1) && NoColon(m1) && NoColon(l2) && NoColon(m2)
    requires PlacesKeyOf(i1, l1, m1) == PlacesKeyOf(i2, l2, m2)
    ensures i1 == i2 && l1 == l2 && m1 == m2
  {
    FieldNoColon("minSitelinks=", m1);
    FieldNoColon("minSitelinks=", m2);
    FieldNoColon("limit=", l1);
    FieldNoColon("limit=", l2);
    ThreeFieldsInjective("places:", "limit=", "minSitelinks=", i1, l1, m1, i2, l2, m2);
  }

  /** The places key determines the code, the limit and the threshold it was built from. */
  lemma {:induction false} PlacesKeyInjective(i1: string, l1: JsNumber, m1: JsNumber, i2: string, l2: JsNumber, m2: JsNumber)
    requires PlacesKey(i1, l1, m1) == PlacesKey(i2, l2, m2)
    ensures i1 == i2 && l1 == l2 && m1 == m2
  {
    RenderNoColon(l1);
    RenderNoColon(l2);
    RenderNoColon(m1);
    RenderNoColon(m2);
    PlacesKeyOfInjective(i1, RenderNumber(l1), RenderNumber(m1), i2, RenderNumber(l2), RenderNumber(m2));
    RenderInjective(m1, m2);
    RenderInjective(l1, l2);
  }

  /** Two places requests share a key exactly when their code and both clamped values agree. */
  lemma PlacesKeyIff(i1: string, l1: JsNumber, m1: JsNumber, i2: string, l2: JsNumber, m2: JsNumber)
    ensures PlacesKey(i1, l1, m1) == PlacesKey(i2, l2, m2) <==> i1 == i2 && l1 == l2 && m1 == m2
  {
    if PlacesKey(i1, l1, m1) == PlacesKey(i2, l2, m2) {
      PlacesKeyInjective(i1, l1, m1, i2, l2, m2);
    }
  }

  /** The country key determines the code. */
  lemma CountryKeyInjective(a: string, b: string)
    requires CountryKey(a) == CountryKey(b)
    ensures a == b
  {
    assert a == CountryKey(a)[8..];
  }

  /** The detail key determines the QID. */
  lemma DetailKeyInjective(a: string, b: string)
    requires DetailKey(a) == DetailKey(b)
    ensures a == b
  {
    assert a == DetailKey(a)[6..];
  }

  /** Every places key starts with `places:`. */
  lemma {:induction false} PlacesKeyOfHead(iso3: string, limit: string, minSitelinks: string)
    ensures |PlacesKeyOf(iso3, limit, minSitelinks)| >= 7
    ensures PlacesKeyOf(iso3, limit, minSitelinks)[..7] == "places:"
  {
    assert PlacesKeyOf(iso3, limit, minSitelinks) == "places:" + (iso3 + ":" + "limit=" + limit + ":" + "minSitelinks=" + minSitelinks);
  }

  /** The three routes never share a key: `country:`, `places:` and `place:` differ in their first six characters. */
  lemma {:induction false} KeysDisjoint(iso3: string, iso3': string, limit: JsNumber, minSitelinks: JsNumber, qid: string)
    ensures CountryKey(iso3) != PlacesKey(iso3', limit, minSitelinks)
    ensures CountryKey(iso3) != DetailKey(qid)
    ensures PlacesKey(iso3', limit, minSitelinks) != DetailKey(qid)
  {
    PlacesKeyOfHead(iso3', RenderNumber(limit), RenderNumber(minSitelinks));
    var p := PlacesKey(iso3', limit, minSitelinks);
    assert p[0] == 'p' && p[5] == 's' by {
      assert p[..7][0] == 'p' && p[..7][5] == 's';
    }
    assert CountryKey(iso3)[0] == 'c';
    assert DetailKey(qid)[0] == 'p' && DetailKey(qid)[5] == ':';
  }
}
