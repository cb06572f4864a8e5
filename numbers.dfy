/**
 * JavaScript numbers as this server meets them: `Number(s)` on request
 * parameters, WKT coordinates and sitelink counts, `Math.min`/`Math.max`
 * clamping, and the decimal rendering a template literal gives a number.
 * Finite values are exact decimals; IEEE-754 rounding is not modelled.
 */
module Numbers {
  import opened Wrappers
  import opened Text

  /** The exact decimal (-1)^negative * mantissa / 10^scale. */
  datatype Decimal = Decimal(negative: bool, mantissa: nat, scale: nat) {
    /** One representation per value: no trailing fractional zero, no negative zero. */
    predicate Canonical() {
      (scale == 0 || mantissa % 10 != 0) && (mantissa == 0 ==> !negative)
    }

    /** The numerator of the value over 10^scale. */
    function Signed(): int {
      if negative then -(mantissa as int) else mantissa
    }
  }

  /** A finite JavaScript number, in canonical form. */
  type Number = d: Decimal | d.Canonical() witness Decimal(false, 0, 0)

  /** A JavaScript number that is either finite or NaN. */
  datatype JsNumber = Finite(value: Number) | NaN

  function FromNat(n: nat): Number {
    Decimal(false, n, 0)
  }

  /** `d < k` for an integer `k`. */
  predicate Below(d: Decimal, k: int) {
    d.Signed() < k * Pow10(d.scale)
  }

  /** `d > k` for an integer `k`. */
  predicate Above(d: Decimal, k: int) {
    d.Signed() > k * Pow10(d.scale)
  }

  /** Strips trailing fractional zeros and the sign of zero, keeping the value. */
  function Normalize(negative: bool, m: nat, s: nat): (d: Number)
    ensures d.scale <= s && d.mantissa * Pow10(s - d.scale) == m
    ensures d.negative == (negative && m != 0)
    decreases s
  {
    if s > 0 && m % 10 == 0 then
      var d := Normalize(negative, m / 10, s - 1);
      var p := Pow10(s - 1 - d.scale);
      assert Pow10(s - d.scale) == 10 * p;
      assert d.mantissa * (10 * p) == 10 * (d.mantissa * p);
      d
    else
      Decimal(negative && m != 0, m, s)
  }

  // ---- The lexical grammar of a decimal literal, without exponent ----

  datatype Sign = NoSign | Plus | Minus

  /** A decimal literal split into its parts: `[+-]? intDigits (. fracDigits)?`. */
  datatype Numeral = Numeral(sign: Sign, intDigits: string, point: bool, fracDigits: string)

  predicate WellFormed(n: Numeral) {
    && AllDigits(n.intDigits) && AllDigits(n.fracDigits)
    && (|n.intDigits| > 0 || |n.fracDigits| > 0)
    && (!n.point ==> n.fracDigits == [])
  }

  function SignText(s: Sign): string {
    match s
    case NoSign => ""
    case Plus => "+"
    case Minus => "-"
  }

  /** The literal text of a numeral. */
  function Spell(n: Numeral): string {
    SignText(n.sign) + n.intDigits + (if n.point then "." else "") + n.fracDigits
  }

  /** The position of the first `c` in `s`, or `|s|` when there is none. */
  function IndexOf(s: string, c: char): (k: nat)
    ensures k <= |s| && (k < |s| ==> s[k] == c)
    ensures forall i :: 0 <= i < k ==> s[i] != c
  {
    if s == [] then 0 else if s[0] == c then 0 else 1 + IndexOf(s[1..], c)
  }

  function SignOf(t: string): Sign {
    if t != [] && t[0] == '-' then Minus else if t != [] && t[0] == '+' then Plus else NoSign
  }

  /** The literal without its sign character. */
  function Unsigned(t: string): string {
    if SignOf(t) == NoSign then t else t[1..]
  }

  /** Splits at the first `.`: the digits before it, whether there is one, the rest. */
  function SplitAtPoint(body: string): (r: (string, bool, string))
    ensures body == r.0 + (if r.1 then "." else "") + r.2
    ensures !r.1 ==> r.2 == []
  {
    var k := IndexOf(body, '.');
    if k < |body| then
      assert body == body[..k] + "." + body[k + 1..];
      (body[..k], true, body[k + 1..])
    else (body, false, [])
  }

  /** Splits a string into a numeral; `None` exactly when it is not a decimal literal. */
  function Lex(t: string): (r: Option<Numeral>)
    ensures r.Some? ==> WellFormed(r.value) && Spell(r.value) == t
  {
    var parts := SplitAtPoint(Unsigned(t));
    var n := Numeral(SignOf(t), parts.0, parts.1, parts.2);
    if WellFormed(n) then Some(n) else None
  }

  lemma SplitOfSpelling(i: string, point: bool, f: string)
    requires AllDigits(i) && (!point ==> f == [])
    ensures SplitAtPoint(i + (if point then "." else "") + f) == (i, point, f)
  {
    var body := i + (if point then "." else "") + f;
    var k := IndexOf(body, '.');
    assert forall j :: 0 <= j < |i| ==> body[j] == i[j];
    if point {
      assert body[|i|] == '.';
      assert body[..k] == i && body[k + 1..] == f;
    } else {
      assert body == i;
    }
  }

  lemma SignOfSpelling(n: Numeral)
    requires WellFormed(n)
    ensures SignOf(Spell(n)) == n.sign
    ensures Unsigned(Spell(n)) == n.intDigits + (if n.point then "." else "") + n.fracDigits
  {
    var body := n.intDigits + (if n.point then "." else "") + n.fracDigits;
    assert Spell(n) == SignText(n.sign) + body;
    if n.sign == NoSign {
      if n.intDigits != [] {
        assert body[0] == n.intDigits[0];
      } else if n.point {
        assert body[0] == '.';
      }
    }
  }

  /** Every well-formed numeral is read back from its own spelling. */
  lemma SpellLex(n: Numeral)
    requires WellFormed(n)
    ensures Lex(Spell(n)) == Some(n)
  {
    SignOfSpelling(n);
    SplitOfSpelling(n.intDigits, n.point, n.fracDigits);
  }

  /** The value a numeral denotes. */
  function ValueOf(n: Numeral): Number
    requires WellFormed(n)
  {
    LeadingZerosValue([], n.intDigits + n.fracDigits);
    Normalize(n.sign == Minus, DigitsValue(n.intDigits + n.fracDigits), |n.fracDigits|)
  }

  /**
   * `Number(s)` on a string: JavaScript white space is trimmed, an empty
   * string is 0, a decimal literal is its value and anything else is NaN.
   */
  function ToNumber(s: string): (r: JsNumber)
    ensures Trim(s) == [] ==> r == Finite(FromNat(0))
    ensures r.NaN? <==> Trim(s) != [] && Lex(Trim(s)).None?
  {
    var t := Trim(s);
    if t == [] then Finite(FromNat(0))
    else match Lex(t)
      case Some(n) => Finite(ValueOf(n))
      case None => NaN
  }

  /** A string of decimal digits is read as the integer it spells. */
  lemma ToNumberDigits(s: string)
    requires s != [] && AllDigits(s)
    ensures ToNumber(s) == Finite(FromNat(DigitsValue(s)))
  {
    TrimIdentity(s);
    var n := Numeral(NoSign, s, false, "");
    assert Spell(n) == s;
    SpellLex(n);
    assert n.intDigits + n.fracDigits == s;
    assert ValueOf(n) == FromNat(DigitsValue(s));
  }

  lemma DashLex(dash: string)
    requires dash == "-"
    ensures Lex(dash).None?
  {
    assert SignOf(dash) == Minus;
    assert Unsigned(dash) == "";
    assert SplitAtPoint("") == ("", false, "");
  }

  lemma DotsLex(dots: string)
    requires dots == "1.2.3"
    ensures Lex(dots).None?
  {
    assert SignOf(dots) == NoSign;
    assert IndexOf(dots, '.') == 1;
    assert SplitAtPoint(dots) == (dots[..1], true, dots[2..]);
    assert dots[2..][1] == '.';
  }

  /** A text without outer white space is its own trim. */
  lemma TrimOfLiteral(s: string)
    requires s != [] && !IsSpace(s[0]) && !IsSpace(s[|s| - 1])
    ensures Trim(s) == s
  {
    TrimIdentity(s);
  }

  /** A lone sign and a numeral with two points are runs of `[-\d.]` that are not numbers. */
  lemma InvalidNumerals(t: string)
    requires t == "-" || t == "1.2.3"
    ensures ToNumber(t).NaN?
  {
    TrimOfLiteral(t);
    if t == "-" {
      DashLex(t);
    } else {
      DotsLex(t);
    }
  }

  // ---- Rendering: what `${x}` and `String(x)` give ----

  /** The digits of the mantissa, zero-padded so that at least one digit precedes the point. */
  function Padded(d: Decimal): (p: string)
    ensures |p| > d.scale && AllDigits(p)
  {
    var digits := NatToString(d.mantissa);
    if |digits| > d.scale then digits
    else
      var z := Repeat('0', d.scale + 1 - |digits|);
      LeadingZerosValue(z, digits);
      z + digits
  }

  lemma PaddedValue(d: Decimal)
    ensures DigitsValue(Padded(d)) == d.mantissa
  {
    var digits := NatToString(d.mantissa);
    NatToStringValue(d.mantissa);
    if |digits| <= d.scale {
      LeadingZerosValue(Repeat('0', d.scale + 1 - |digits|), digits);
    }
  }

  /** The numeral JavaScript writes for a finite number (plain notation). */
  function NumeralOf(d: Number): (n: Numeral)
    ensures WellFormed(n)
  {
    var p := Padded(d);
    var cut := |p| - d.scale;
    Numeral(if d.negative then Minus else NoSign, p[..cut], d.scale > 0, p[cut..])
  }

  /** `String(d)`: it starts with `-` or a digit and ends with a digit. */
  function Render(d: Number): (r: string)
    ensures r != [] && (r[0] == '-' || IsDigit(r[0])) && IsDigit(r[|r| - 1])
  {
    SpellEnds(NumeralOf(d));
    Spell(NumeralOf(d))
  }

  /** An unsigned or negative numeral with digits on each side of its point is spelled from `-` or a digit to a digit. */
  lemma SpellEnds(n: Numeral)
    requires WellFormed(n) && n.sign != Plus && n.intDigits != [] && (n.point ==> n.fracDigits != [])
    ensures Spell(n) != [] && (Spell(n)[0] == '-' || IsDigit(Spell(n)[0])) && IsDigit(Spell(n)[|Spell(n)| - 1])
  {
    var t := Spell(n);
    var head := SignText(n.sign) + n.intDigits;
    var tail := (if n.point then "." else "") + n.fracDigits;
    assert t == head + tail;
    assert t[0] == head[0];
    if n.sign == NoSign {
      assert head[0] == n.intDigits[0];
    }
    if n.point {
      assert t[|t| - 1] == n.fracDigits[|n.fracDigits| - 1];
    } else {
      assert tail == [];
      assert t[|t| - 1] == n.intDigits[|n.intDigits| - 1];
    }
  }

  /** `${x}`: NaN as `NaN`, a finite number as its decimal numeral, which ends in a digit. */
  function RenderNumber(x: JsNumber): (r: string)
    ensures x.NaN? ==> r == "NaN"
    ensures x.Finite? ==> r != [] && IsDigit(r[|r| - 1])
  {
    match x
    case Finite(d) => Render(d)
    case NaN => "NaN"
  }

  lemma RenderIsSpelling(d: Number)
    ensures Render(d) == Spell(NumeralOf(d))
  {
  }

  /** A rendered number has no white space at either end. */
  lemma RenderHasNoOuterSpace(d: Number)
    ensures Render(d) != [] && !IsSpace(Render(d)[0]) && !IsSpace(Render(d)[|Render(d)| - 1])
  {
  }

  /** Reading back the numeral JavaScript writes for `d` gives `d`. */
  lemma ValueOfNumeralOf(d: Number)
    ensures ValueOf(NumeralOf(d)) == d
  {
    var n := NumeralOf(d);
    var p := Padded(d);
    assert n.intDigits + n.fracDigits == p;
    PaddedValue(d);
  }

  /** Rendering a number and reading it back with `Number()` gives the same number. */
  lemma RenderRoundTrip(x: JsNumber)
    ensures ToNumber(RenderNumber(x)) == x
  {
    match x
    case NaN =>
      var t := "NaN";
      TrimIdentity(t);
      assert !IsDigit(Unsigned(t)[0]);
    case Finite(d) =>
      RenderIsSpelling(d);
      RenderHasNoOuterSpace(d);
      TrimIdentity(Render(d));
      SpellLex(NumeralOf(d));
      ValueOfNumeralOf(d);
  }

  /** Distinct numbers render differently. */
  lemma RenderInjective(x: JsNumber, y: JsNumber)
    requires RenderNumber(x) == RenderNumber(y)
    ensures x == y
  {
    RenderRoundTrip(x);
    RenderRoundTrip(y);
  }

  // ---- Math.min / Math.max against an integer constant ----

  /** `Math.min(k, x)`: NaN stays NaN, otherwise the smaller of the two. */
  function MinWith(k: nat, x: JsNumber): (r: JsNumber)
    ensures r.NaN? <==> x.NaN?
    ensures r.Finite? ==> !Above(r.value, k)
    ensures x.Finite? && !Above(x.value, k) ==> r == x
    ensures x.Finite? && Above(x.value, k) ==> r == Finite(FromNat(k))
  {
    match x
    case NaN => NaN
    case Finite(d) => if Above(d, k) then Finite(FromNat(k)) else x
  }

  /** `Math.max(k, x)`: NaN stays NaN, otherwise the larger of the two. */
  function MaxWith(k: nat, x: JsNumber): (r: JsNumber)
    ensures r.NaN? <==> x.NaN?
    ensures r.Finite? ==> !Below(r.value, k)
    ensures x.Finite? && !Below(x.value, k) ==> r == x
    ensures x.Finite? && Below(x.value, k) ==> r == Finite(FromNat(k))
  {
    match x
    case NaN => NaN
    case Finite(d) => if Below(d, k) then Finite(FromNat(k)) else x
  }
}
