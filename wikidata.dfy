/**
 * The three small helpers of the server that read Wikidata values:
 * `qidFromUri` (the regex `/\/(Q\d+)$/`), `parseWktPoint` (the unanchored
 * regex `/Point\(([-\d.]+)\s+([-\d.]+)\)/` followed by `Number`) and
 * `commonsImageUrl` (a Commons `Special:FilePath` URL with a `?width=`).
 */
module Wikidata {
  import opened Wrappers
  import opened Text
  import opened Numbers
  import opened UriComponent

  // ---- qidFromUri ----

  /** `^Q\d+$`: a Wikidata entity identifier. */
  predicate IsQid(s: string) {
    |s| >= 2 && s[0] == 'Q' && AllDigits(s[1..])
  }

  /** The length of the run of digits that ends `s`. */
  function TrailingDigits(s: string): (k: nat)
    ensures k <= |s| && forall i :: |s| - k <= i < |s| ==> IsDigit(s[i])
    ensures k < |s| ==> !IsDigit(s[|s| - k - 1])
  {
    if s != [] && IsDigit(s[|s| - 1]) then TrailingDigits(s[..|s| - 1]) + 1 else 0
  }

  /**
   * `qidFromUri`: the `Q<digits>` that ends the URI right after a `/`, or
   * the empty string when the URI does not end that way.
   */
  function QidFromUri(uri: string): (r: string)
    ensures r == "" || IsQid(r)
    ensures r != "" ==> IsSuffix("/" + r, uri)
  {
    var n := |uri|;
    var k := TrailingDigits(uri);
    if k > 0 && n >= k + 2 && uri[n - k - 1] == 'Q' && uri[n - k - 2] == '/' then
      assert uri[n - k - 2..] == "/" + uri[n - k - 1..];
      uri[n - k - 1..]
    else ""
  }

  /** A URI of the form `prefix/Q<digits>` yields exactly `Q<digits>`. */
  lemma {:induction false} QidFromUriOfForm(prefix: string, digits: string)
    requires |digits| > 0 && AllDigits(digits)
    ensures QidFromUri(prefix + "/Q" + digits) == "Q" + digits
  {
    var uri := prefix + "/Q" + digits;
    var n := |uri|;
    var k := TrailingDigits(uri);
    assert uri[n - |digits|..] == digits;
    assert uri[n - |digits| - 1] == 'Q';
    assert uri[n - |digits| - 2] == '/';
    assert forall i :: n - |digits| <= i < n ==> IsDigit(uri[i]);
    assert uri[n - k - 1..] == "Q" + digits;
  }

  /** A URI that does not end in `/Q<digits>` yields the empty string. */
  lemma {:induction false} QidFromUriOtherwise(uri: string)
    requires forall prefix: string, digits: string ::
      prefix + "/Q" + digits == uri ==> !(|digits| > 0 && AllDigits(digits))
    ensures QidFromUri(uri) == ""
  {
    var r := QidFromUri(uri);
    if r != "" {
      var prefix := uri[..|uri| - |r| - 1];
      assert prefix + "/Q" + r[1..] == uri by {
        assert uri == prefix + uri[|uri| - |r| - 1..];
      }
    }
  }

  // ---- parseWktPoint ----

  /** The class `[-\d.]`. */
  predicate IsNumeralChar(c: char) {
    c == '-' || IsDigit(c) || c == '.'
  }

  predicate AllNumeralChars(s: string) {
    forall i :: 0 <= i < |s| ==> IsNumeralChar(s[i])
  }

  /** The length of the run of `[-\d.]` characters that starts at `i`. */
  function NumeralRun(s: string, i: nat): (k: nat)
    requires i <= |s|
    ensures i + k <= |s| && forall j :: i <= j < i + k ==> IsNumeralChar(s[j])
    ensures i + k < |s| ==> !IsNumeralChar(s[i + k])
    decreases |s| - i
  {
    if i < |s| && IsNumeralChar(s[i]) then 1 + NumeralRun(s, i + 1) else 0
  }

  /** The length of the run of `\s` characters that starts at `i`. */
  function SpaceRun(s: string, i: nat): (k: nat)
    requires i <= |s|
    ensures i + k <= |s| && forall j :: i <= j < i + k ==> IsSpace(s[j])
    ensures i + k < |s| ==> !IsSpace(s[i + k])
    decreases |s| - i
  {
    if i < |s| && IsSpace(s[i]) then 1 + SpaceRun(s, i + 1) else 0
  }

  const POINT_OPEN := "Point("

  /**
   * What the regular expression means at one position: `s[p..]` starts with
   * `Point(x w y)` where `x` and `y` are non-empty runs of `[-\d.]` and `w`
   * a non-empty run of `\s`.
   */
  ghost predicate PointMatch(s: string, p: nat, x: string, y: string) {
    p <= |s| && |x| > 0 && |y| > 0 && AllNumeralChars(x) && AllNumeralChars(y)
    && exists w :: |w| > 0 && AllSpace(w) && IsPrefix(POINT_OPEN + x + w + y + ")", s[p..])
  }

  /** The regular expression tried at position `p`; its two captures on success. */
  function MatchAt(s: string, p: nat): Option<(string, string)>
    requires p <= |s|
  {
    if p + 6 <= |s| && s[p..p + 6] == POINT_OPEN then MatchAfterOpen(s, p + 6) else None
  }

  /** The rest of the pattern after `Point(`: greedy runs, then `)`. */
  function MatchAfterOpen(s: string, a: nat): Option<(string, string)>
    requires a <= |s|
  {
    var b := a + NumeralRun(s, a);
    var c := b + SpaceRun(s, b);
    Close(s, a, b, c, c + NumeralRun(s, c))
  }

  /** The captures `s[a..b]` and `s[c..e]` when all three runs are non-empty and `)` follows. */
  function Close(s: string, a: nat, b: nat, c: nat, e: nat): Option<(string, string)>
    requires a <= b <= c <= e <= |s|
  {
    if a < b && b < c && c < e && e < |s| && s[e] == ')' then Some((s[a..b], s[c..e])) else None
  }

  /** A run that is followed by a character outside its class is the maximal run. */
  lemma {:induction false} NumeralRunIs(s: string, i: nat, k: nat)
    requires i + k <= |s| && forall j :: i <= j < i + k ==> IsNumeralChar(s[j])
    requires i + k < |s| ==> !IsNumeralChar(s[i + k])
    ensures NumeralRun(s, i) == k
    decreases k
  {
    if k > 0 {
      NumeralRunIs(s, i + 1, k - 1);
    }
  }

  lemma {:induction false} SpaceRunIs(s: string, i: nat, k: nat)
    requires i + k <= |s| && forall j :: i <= j < i + k ==> IsSpace(s[j])
    requires i + k < |s| ==> !IsSpace(s[i + k])
    ensures SpaceRun(s, i) == k
    decreases k
  {
    if k > 0 {
      SpaceRunIs(s, i + 1, k - 1);
    }
  }

  /** A slice is a run of `[-\d.]` exactly when each of its positions in the text is. */
  lemma {:induction false} NumeralSlice(s: string, i: nat, k: nat)
    requires i + k <= |s|
    ensures AllNumeralChars(s[i..i + k]) <==> forall j :: i <= j < i + k ==> IsNumeralChar(s[j])
  {
    assert forall j :: i <= j < i + k ==> s[i..i + k][j - i] == s[j];
  }

  /** A slice is a run of `\s` exactly when each of its positions in the text is. */
  lemma {:induction false} SpaceSlice(s: string, i: nat, k: nat)
    requires i + k <= |s|
    ensures AllSpace(s[i..i + k]) <==> forall j :: i <= j < i + k ==> IsSpace(s[j])
  {
    assert forall j :: i <= j < i + k ==> s[i..i + k][j - i] == s[j];
  }

  /** When the greedy scan at `p` succeeds, the pattern matches there with its captures. */
  lemma {:induction false} MatchAtSound(s: string, p: nat)
    requires p <= |s| && MatchAt(s, p).Some?
    ensures PointMatch(s, p, MatchAt(s, p).value.0, MatchAt(s, p).value.1)
  {
    var a := p + 6;
    var b := a + NumeralRun(s, a);
    var c := b + SpaceRun(s, b);
    var e := c + NumeralRun(s, c);
    var x, w, y := s[a..b], s[b..c], s[c..e];
    assert MatchAt(s, p).value == (x, y);
    NumeralSlice(s, a, b - a);
    SpaceSlice(s, b, c - b);
    NumeralSlice(s, c, e - c);
    PointJoin(s, p, a, b, c, e);
    assert |w| > 0 && AllSpace(w) && IsPrefix(POINT_OPEN + x + w + y + ")", s[p..]);
  }

  /** The five parts of `s[p..e + 1]` joined give a prefix of `s[p..]`. */
  lemma {:induction false} PointJoin(s: string, p: nat, a: nat, b: nat, c: nat, e: nat)
    requires p + 6 == a <= b <= c <= e < |s| && s[p..a] == POINT_OPEN && s[e] == ')'
    ensures IsPrefix(POINT_OPEN + s[a..b] + s[b..c] + s[c..e] + ")", s[p..])
  {
    assert s[p..e + 1] == s[p..a] + s[a..b] + s[b..c] + s[c..e] + [s[e]];
    assert s[p..][..e + 1 - p] == s[p..e + 1];
  }

  /** A prefix of a concatenation splits into a prefix and what follows it. */
  lemma {:induction false} PrefixSplit(a: string, b: string, t: string)
    requires IsPrefix(a + b, t)
    ensures IsPrefix(a, t) && IsPrefix(b, t[|a|..])
  {
    assert t[..|a|] == (a + b)[..|a|];
    assert t[|a|..][..|b|] == (a + b)[|a|..];
  }

  /** The scan after `Point(` succeeds when the three runs end where the captures say. */
  lemma {:induction false} MatchAfterOpenIs(s: string, a: nat, b: nat, c: nat, e: nat)
    requires a < b < c < e < |s| && s[e] == ')'
    requires NumeralRun(s, a) == b - a && SpaceRun(s, b) == c - b && NumeralRun(s, c) == e - c
    ensures MatchAfterOpen(s, a) == Some((s[a..b], s[c..e]))
  {
    assert MatchAfterOpen(s, a) == Close(s, a, b, c, e);
  }

  /** The parts of a text that starts with `Point(x w y)`. */
  lemma {:induction false} PointParts(t: string, x: string, w: string, y: string)
    requires IsPrefix(POINT_OPEN + x + w + y + ")", t)
    ensures var b := 6 + |x|; var c := b + |w|; var e := c + |y|;
      && e < |t| && t[..6] == POINT_OPEN && t[6..b] == x && t[b..c] == w && t[c..e] == y && t[e] == ')'
  {
    PrefixSplit(POINT_OPEN + x + w + y, ")", t);
    PrefixSplit(POINT_OPEN + x + w, y, t);
    PrefixSplit(POINT_OPEN + x, w, t);
    PrefixSplit(POINT_OPEN, x, t);
  }

  /** The positions of `Point(x w y)` inside a text that has it at `p`. */
  lemma {:induction false} PointPartsAt(s: string, p: nat, x: string, w: string, y: string)
    requires p <= |s| && IsPrefix(POINT_OPEN + x + w + y + ")", s[p..])
    ensures p + 6 + |x| + |w| + |y| < |s|
    ensures s[p..p + 6] == POINT_OPEN
    ensures s[p + 6..p + 6 + |x|] == x
    ensures s[p + 6 + |x|..p + 6 + |x| + |w|] == w
    ensures s[p + 6 + |x| + |w|..p + 6 + |x| + |w| + |y|] == y
    ensures s[p + 6 + |x| + |w| + |y|] == ')'
  {
    PointParts(s[p..], x, w, y);
  }

  /** A slice of `[-\d.]` followed by another character is the run there. */
  lemma {:induction false} NumeralRunOfSlice(s: string, a: nat, b: nat)
    requires a <= b < |s| && AllNumeralChars(s[a..b]) && !IsNumeralChar(s[b])
    ensures NumeralRun(s, a) == b - a
  {
    NumeralSlice(s, a, b - a);
    NumeralRunIs(s, a, b - a);
  }

  /** A slice of `\s` followed by another character is the run there. */
  lemma {:induction false} SpaceRunOfSlice(s: string, a: nat, b: nat)
    requires a <= b < |s| && AllSpace(s[a..b]) && !IsSpace(s[b])
    ensures SpaceRun(s, a) == b - a
  {
    SpaceSlice(s, a, b - a);
    SpaceRunIs(s, a, b - a);
  }

  /** The two classes share no character. */
  lemma SpaceIsNotNumeral(c: char)
    requires IsSpace(c)
    ensures !IsNumeralChar(c)
  {
  }

  /** Runs that fill their slices and stop where the slices end are what the scan measures. */
  lemma {:induction false} RunsAt(s: string, a: nat, b: nat, c: nat, e: nat)
    requires a < b < c < e < |s| && s[e] == ')'
    requires AllNumeralChars(s[a..b]) && AllSpace(s[b..c]) && AllNumeralChars(s[c..e])
    ensures NumeralRun(s, a) == b - a && SpaceRun(s, b) == c - b && NumeralRun(s, c) == e - c
  {
    assert s[b..c][0] == s[b] && s[c..e][0] == s[c];
    SpaceIsNotNumeral(s[b]);
    NumeralRunOfSlice(s, a, b);
    SpaceRunOfSlice(s, b, c);
    NumeralRunOfSlice(s, c, e);
  }

  /** When the pattern matches at `p` with captures `x, y`, the greedy scan finds exactly those. */
  lemma {:induction false} MatchAtComplete(s: string, p: nat, x: string, y: string, w: string)
    requires p <= |s| && |x| > 0 && |y| > 0 && AllNumeralChars(x) && AllNumeralChars(y)
    requires |w| > 0 && AllSpace(w) && IsPrefix(POINT_OPEN + x + w + y + ")", s[p..])
    ensures MatchAt(s, p) == Some((x, y))
  {
    var a := p + 6;
    var b := a + |x|;
    var c := b + |w|;
    var e := c + |y|;
    PointPartsAt(s, p, x, w, y);
    RunsAt(s, a, b, c, e);
    MatchAfterOpenIs(s, a, b, c, e);
  }

  /** The greedy scan at `p` succeeds with captures `x, y` exactly when the pattern matches there with them. */
  lemma {:induction false} MatchAtMeaning(s: string, p: nat, x: string, y: string)
    requires p <= |s|
    ensures MatchAt(s, p) == Some((x, y)) <==> PointMatch(s, p, x, y)
  {
    if MatchAt(s, p) == Some((x, y)) {
      MatchAtSound(s, p);
    }
    if PointMatch(s, p, x, y) {
      var w :| |w| > 0 && AllSpace(w) && IsPrefix(POINT_OPEN + x + w + y + ")", s[p..]);
      MatchAtComplete(s, p, x, y, w);
    }
  }

  /** The leftmost position at or after `from` where the pattern matches. */
  function FindPoint(s: string, from: nat): (r: Option<nat>)
    requires from <= |s|
    ensures r.Some? ==> from <= r.value <= |s| && MatchAt(s, r.value).Some?
    ensures r.Some? ==> forall q :: from <= q < r.value ==> MatchAt(s, q).None?
    ensures r.None? ==> forall q :: from <= q <= |s| ==> MatchAt(s, q).None?
    decreases |s| - from
  {
    if MatchAt(s, from).Some? then Some(from)
    else if from == |s| then None
    else FindPoint(s, from + 1)
  }

  /** A WKT point: `lon` from the first number, `lat` from the second. */
  datatype Point = Point(lat: Number, lon: Number)

  /**
   * `parseWktPoint`: the first `Point(lon lat)` in the text, when both
   * captured numerals are valid numbers; `None` otherwise.
   */
  function ParseWktPoint(wkt: string): (r: Option<Point>)
    ensures FindPoint(wkt, 0).None? ==> r.None?
  {
    match FindPoint(wkt, 0)
    case None => None
    case Some(p) =>
      var captures := MatchAt(wkt, p).value;
      var lon := ToNumber(captures.0);
      var lat := ToNumber(captures.1);
      if lon.Finite? && lat.Finite? then Some(Point(lat.value, lon.value)) else None
  }

  /**
   * The leftmost `Point(x y)` in the text decides: it gives `lon` from `x`
   * and `lat` from `y` when both are numbers, and `None` when either is not.
   */
  lemma {:induction false} ParseWktPointMatch(wkt: string, p: nat, x: string, y: string)
    requires PointMatch(wkt, p, x, y)
    requires forall q, x', y' :: 0 <= q < p ==> !PointMatch(wkt, q, x', y')
    ensures ToNumber(x).Finite? && ToNumber(y).Finite? ==>
      ParseWktPoint(wkt) == Some(Point(ToNumber(y).value, ToNumber(x).value))
    ensures ToNumber(x).NaN? || ToNumber(y).NaN? ==> ParseWktPoint(wkt) == None
  {
    MatchAtMeaning(wkt, p, x, y);
    var f := FindPoint(wkt, 0);
    assert f.Some? && f.value <= p;
    if f.value < p {
      MatchAtSound(wkt, f.value);
      assert false;
    }
  }

  /** A text in which the pattern matches nowhere has no point. */
  lemma {:induction false} ParseWktPointNoMatch(wkt: string)
    requires forall q, x, y :: !PointMatch(wkt, q, x, y)
    ensures ParseWktPoint(wkt) == None
  {
    var f := FindPoint(wkt, 0);
    if f.Some? {
      MatchAtSound(wkt, f.value);
    }
  }

  /** The spelling of a well-formed numeral has a digit. */
  lemma {:induction false} NumeralHasDigit(n: Numeral)
    requires WellFormed(n)
    ensures exists i :: 0 <= i < |Spell(n)| && IsDigit(Spell(n)[i])
  {
    var sign := SignText(n.sign);
    var dot := if n.point then "." else "";
    if n.intDigits != [] {
      assert Spell(n) == sign + n.intDigits + (dot + n.fracDigits);
      assert Spell(n)[|sign|] == n.intDigits[0];
    } else {
      assert Spell(n) == (sign + dot) + n.fracDigits;
      assert Spell(n)[|Spell(n)| - 1] == n.fracDigits[|n.fracDigits| - 1];
    }
  }

  /** The first capture of a successful scan is a run of `[-\d.]` taken from the text. */
  lemma {:induction false} FirstCaptureIn(wkt: string, p: nat)
    requires p <= |wkt| && MatchAt(wkt, p).Some?
    ensures var x := MatchAt(wkt, p).value.0;
      && x != [] && AllNumeralChars(x)
      && forall i :: 0 <= i < |x| ==> x[i] == wkt[p + 6 + i]
  {
    NumeralSlice(wkt, p + 6, NumeralRun(wkt, p + 6));
  }

  /** A run of `[-\d.]` characters has no outer white space. */
  lemma {:induction false} NumeralCharsTrim(x: string)
    requires x != [] && AllNumeralChars(x)
    ensures Trim(x) == x
  {
    assert !IsSpace(x[0]) && !IsSpace(x[|x| - 1]);
    TrimIdentity(x);
  }

  /** A run of `[-\d.]` characters without a digit is not a number. */
  lemma {:induction false} NoDigitIsNaN(x: string)
    requires x != [] && AllNumeralChars(x)
    requires forall i :: 0 <= i < |x| ==> !IsDigit(x[i])
    ensures ToNumber(x).NaN?
  {
    NumeralCharsTrim(x);
    if Lex(x).Some? {
      NumeralHasDigit(Lex(x).value);
      assert false;
    }
  }

  /**
   * A text without any digit, such as `Point(NaN NaN)` or the empty string
   * for an absent binding, has no point.
   */
  lemma {:induction false} ParseWktPointNeedsDigit(wkt: string)
    requires forall i :: 0 <= i < |wkt| ==> !IsDigit(wkt[i])
    ensures ParseWktPoint(wkt) == None
  {
    var f := FindPoint(wkt, 0);
    if f.Some? {
      var p := f.value;
      var x := MatchAt(wkt, p).value.0;
      FirstCaptureIn(wkt, p);
      NoDigitIsNaN(x);
    }
  }

  // ---- commonsImageUrl ----

  const COMMONS_FILE_PATH := "https://commons.wikimedia.org/wiki/Special:FilePath/"
  const FILE_PATH_MARKER := "Special:FilePath/"

  /** `?width=${encodeURIComponent(width)}`. */
  function WidthQuery(width: nat): (r: string)
    ensures r == "?width=" + NatToString(width)
  {
    EncodeDigits(NatToString(width));
    "?width=" + Encode(NatToString(width))
  }

  /**
   * `commonsImageUrl`: empty exactly for an empty reference; a URL that
   * already has `Special:FilePath/` gets only the width appended; anything
   * else is percent-encoded under the Commons file-path base.
   */
  function CommonsImageUrl(u: string, width: nat): (r: string)
    ensures u == "" <==> r == ""
    ensures u != "" ==> IsSuffix("?width=" + NatToString(width), r)
    ensures u != "" && Contains(u, FILE_PATH_MARKER) ==> r == u + "?width=" + NatToString(width)
  {
    if u == "" then ""
    else if Contains(u, FILE_PATH_MARKER) then u + WidthQuery(width)
    else
      var q := WidthQuery(width);
      var r := COMMONS_FILE_PATH + Encode(u) + q;
      assert r[|r| - |q|..] == q;
      r
  }

  /**
   * A bare file name ends up under the Commons file-path base, followed by
   * the width, as a segment that decodes back to the name.
   */
  lemma {:induction false} CommonsImageUrlOfName(u: string, width: nat)
    requires u != "" && !Contains(u, FILE_PATH_MARKER)
    ensures exists name ::
      CommonsImageUrl(u, width) == COMMONS_FILE_PATH + name + "?width=" + NatToString(width) && Decode(name) == Some(u)
  {
    DecodeEncode(u);
    var name := Encode(u);
    assert CommonsImageUrl(u, width) == COMMONS_FILE_PATH + name + "?width=" + NatToString(width);
  }

  /** A text cannot contain a longer one. */
  lemma NotContainsLonger(s: string, t: string)
    requires |t| > |s|
    ensures !Contains(s, t)
  {
  }

  /** `Example.jpg` at list width becomes the Commons file path of `Example.jpg?width=560`. */
  lemma CommonsImageUrlExample(u: string, width: nat)
    requires u == "Example.jpg" && width == 560
    ensures CommonsImageUrl(u, width) == COMMONS_FILE_PATH + u + "?width=560"
  {
    assert forall i :: 0 <= i < |u| ==> Unreserved(u[i]);
    EncodeUnreserved(u);
    NotContainsLonger(u, FILE_PATH_MARKER);
    assert NatToString(56) == NatToString(5) + [DigitChar(6)];
  }
}
