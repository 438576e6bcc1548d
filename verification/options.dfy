/**
 * Option validation (checkOptions, isNumber, isString) and the tolerance setting of
 * _prepareConfig. A string tolerance must match `^[+-]?\d*\.?\d+(px|%)?$`; the pattern is given
 * here as a grammar (ToleranceSyntax) and recognized by a deterministic parser proved equivalent.
 */
module Options {
  import opened Base

  // ---------------------------------------------------------------------------------------------
  // Option values

  /**
   * A tolerance option as checkOptions tells it apart: undefined, a number (isNumber: not NaN),
   * NaN, a string (isString), or any other value (boolean, null, object).
   */
  datatype ToleranceArg = Unset | Number(n: real) | NotANumber | Text(s: string) | OtherValue

  /** The options object. "" stands for a falsy `direction` or `box`; flags hold the option's truthiness. */
  datatype Options = Options(direction: string, box: string, tolerance: ToleranceArg,
                             partially: bool, excludeHidden: bool)

  predicate IsNumber(t: ToleranceArg) {
    t.Number?
  }

  predicate IsString(t: ToleranceArg) {
    t.Text?
  }

  // ---------------------------------------------------------------------------------------------
  // The tolerance pattern as a grammar

  predicate IsDigit(c: char) {
    '0' <= c <= '9'
  }

  predicate AllDigits(s: string) {
    forall i | 0 <= i < |s| :: IsDigit(s[i])
  }

  /** One way of reading a string as `sign digits* dot? digits+ unit?`. */
  datatype ToleranceSyntax = ToleranceSyntax(sign: string, whole: string, dot: bool, fraction: string, unit: string)

  predicate WellFormed(t: ToleranceSyntax) {
    && (t.sign == "" || t.sign == "+" || t.sign == "-")
    && AllDigits(t.whole)
    && AllDigits(t.fraction)
    && |t.fraction| > 0
    && (t.unit == "" || t.unit == "px" || t.unit == "%")
  }

  /** The reading the parser below picks among the equivalent ones: without a dot all digits are the fraction. */
  predicate Canonical(t: ToleranceSyntax) {
    t.dot || t.whole == ""
  }

  function Render(t: ToleranceSyntax): string {
    t.sign + t.whole + (if t.dot then "." else "") + t.fraction + t.unit
  }

  /** The regular expression of checkOptions: some well-formed reading spells the string. */
  ghost predicate MatchesTolerancePattern(s: string) {
    exists t :: WellFormed(t) && Render(t) == s
  }

  // ---------------------------------------------------------------------------------------------
  // A deterministic recognizer

  function Body(t: ToleranceSyntax): string {
    t.whole + (if t.dot then "." else "") + t.fraction
  }

  function StripUnit(s: string): (r: (string, string))
    ensures r.0 + r.1 == s
    ensures r.1 == "" || r.1 == "px" || r.1 == "%"
  {
    if |s| >= 2 && s[|s| - 2] == 'p' && s[|s| - 1] == 'x' then (s[..|s| - 2], "px")
    else if |s| >= 1 && s[|s| - 1] == '%' then (s[..|s| - 1], "%")
    else (s, "")
  }

  function StripSign(s: string): (r: (string, string))
    ensures r.0 + r.1 == s
    ensures r.0 == "" || r.0 == "+" || r.0 == "-"
  {
    if |s| >= 1 && (s[0] == '+' || s[0] == '-') then (s[..1], s[1..])
    else ("", s)
  }

  /** The position of the first '.', or |s| if there is none. */
  function IndexOfDot(s: string): (r: nat)
    ensures r <= |s|
    ensures r < |s| ==> s[r] == '.'
    ensures forall j | 0 <= j < r :: s[j] != '.'
  {
    if |s| == 0 then 0
    else if s[0] == '.' then 0
    else 1 + IndexOfDot(s[1..])
  }

  function ParseBody(sign: string, body: string, unit: string): (r: Option<ToleranceSyntax>)
    ensures r.Some? ==> && r.value.sign == sign && r.value.unit == unit && Body(r.value) == body
                        && AllDigits(r.value.whole) && AllDigits(r.value.fraction) && |r.value.fraction| > 0
                        && Canonical(r.value)
  {
    if |body| > 0 && AllDigits(body) then Some(ToleranceSyntax(sign, "", false, body, unit))
    else
      var i := IndexOfDot(body);
      if i + 1 < |body| && AllDigits(body[..i]) && AllDigits(body[i + 1..]) then
        assert body == body[..i] + "." + body[i + 1..];
        Some(ToleranceSyntax(sign, body[..i], true, body[i + 1..], unit))
      else None
  }

  lemma RenderParts(t: ToleranceSyntax)
    ensures Render(t) == t.sign + Body(t) + t.unit
  {
  }

  function ParseTolerance(s: string): (r: Option<ToleranceSyntax>)
    ensures r.Some? ==> WellFormed(r.value) && Canonical(r.value) && Render(r.value) == s
  {
    var unit := StripUnit(s);
    var sign := StripSign(unit.0);
    var r := ParseBody(sign.0, sign.1, unit.1);
    if r.Some? then
      RenderParts(r.value);
      r
    else r
  }

  /** A unit after a digit comes off whole, and nothing comes off when there is none. */
  lemma StripUnitAfterDigit(rest: string, unit: string)
    requires |rest| > 0 && IsDigit(rest[|rest| - 1])
    requires unit == "" || unit == "px" || unit == "%"
    ensures StripUnit(rest + unit) == (rest, unit)
  {
    var s := rest + unit;
    if unit == "px" {
      assert s[|s| - 2] == 'p' && s[|s| - 1] == 'x';
      assert s[..|s| - 2] == rest;
    } else if unit == "%" {
      assert s[|s| - 1] == '%';
      assert s[..|s| - 1] == rest;
    } else {
      assert s == rest;
    }
  }

  /** The unit comes off a rendered reading exactly as it went on: the body ends in a digit. */
  lemma StripUnitRendered(t: ToleranceSyntax)
    requires WellFormed(t)
    ensures StripUnit(Render(t)) == (t.sign + Body(t), t.unit)
  {
    var front := t.sign + t.whole + (if t.dot then "." else "");
    var rest := front + t.fraction;
    assert rest == t.sign + Body(t);
    assert Render(t) == rest + t.unit;
    assert rest[|rest| - 1] == t.fraction[|t.fraction| - 1];
    StripUnitAfterDigit(rest, t.unit);
  }

  /** The sign comes off exactly as it went on: the body starts with a digit or a dot. */
  lemma StripSignRendered(t: ToleranceSyntax)
    requires WellFormed(t)
    ensures StripSign(t.sign + Body(t)) == (t.sign, Body(t))
  {
    var body := Body(t);
    var rest := t.sign + body;
    assert IsDigit(body[0]) || body[0] == '.' by {
      if |t.whole| > 0 {
        assert body[0] == t.whole[0];
      } else if t.dot {
        assert body[0] == '.';
      } else {
        assert body[0] == t.fraction[0];
      }
    }
    if t.sign == "" {
      assert rest == body;
    } else {
      assert rest[0] == t.sign[0];
      assert rest[1..] == body;
    }
  }

  lemma StripRendered(t: ToleranceSyntax)
    requires WellFormed(t)
    ensures StripUnit(Render(t)) == (t.sign + Body(t), t.unit)
    ensures StripSign(t.sign + Body(t)) == (t.sign, Body(t))
  {
    StripUnitRendered(t);
    StripSignRendered(t);
  }

  /** With a dot, the parser splits the body at the dot the reading put there. */
  lemma DotSplit(t: ToleranceSyntax)
    requires WellFormed(t) && t.dot
    ensures ParseBody(t.sign, Body(t), t.unit) == Some(t)
  {
    var body := Body(t);
    var k := |t.whole|;
    assert body[k] == '.';
    assert !AllDigits(body) by {
      assert !IsDigit(body[k]);
    }
    assert forall j | 0 <= j < k :: body[j] == t.whole[j];
    assert IndexOfDot(body) == k;
    assert body[..k] == t.whole;
    assert body[k + 1..] == t.fraction;
  }

  lemma AllDigitsConcat(a: string, b: string)
    requires AllDigits(a) && AllDigits(b)
    ensures AllDigits(a + b)
  {
    forall i | 0 <= i < |a + b|
      ensures IsDigit((a + b)[i])
    {
      if i < |a| {
        assert (a + b)[i] == a[i];
      } else {
        assert (a + b)[i] == b[i - |a|];
      }
    }
  }

  /** Parsing a rendered reading comes down to parsing its body with the sign and unit it had. */
  lemma ParseRendered(t: ToleranceSyntax)
    requires WellFormed(t)
    ensures ParseTolerance(Render(t)) == ParseBody(t.sign, Body(t), t.unit)
  {
    StripRendered(t);
  }

  /** A body of digits alone is read as the fraction. */
  lemma ParseDigits(sign: string, body: string, unit: string)
    requires |body| > 0 && AllDigits(body)
    ensures ParseBody(sign, body, unit) == Some(ToleranceSyntax(sign, "", false, body, unit))
  {
  }

  /** Without a dot, the whole body is digits and the parser takes it at once. */
  lemma NoDotParses(t: ToleranceSyntax)
    requires WellFormed(t) && !t.dot
    ensures ParseBody(t.sign, Body(t), t.unit).Some?
  {
    var body := Body(t);
    assert body == t.whole + t.fraction;
    AllDigitsConcat(t.whole, t.fraction);
    ParseDigits(t.sign, body, t.unit);
  }

  /** Every well-formed reading is found by the parser (the pattern is no larger than the parser's language). */
  lemma ParseComplete(t: ToleranceSyntax)
    requires WellFormed(t)
    ensures ParseTolerance(Render(t)).Some?
  {
    ParseRendered(t);
    if t.dot {
      DotSplit(t);
    } else {
      NoDotParses(t);
    }
  }

  /** The parser recognizes exactly the strings the regular expression accepts. */
  lemma ParseMatchesPattern(s: string)
    ensures ParseTolerance(s).Some? <==> MatchesTolerancePattern(s)
  {
    if ParseTolerance(s).Some? {
      var t := ParseTolerance(s).value;
      assert WellFormed(t) && Render(t) == s;
    }
    if MatchesTolerancePattern(s) {
      var t :| WellFormed(t) && Render(t) == s;
      ParseComplete(t);
    }
  }

  /** A canonical reading survives rendering and parsing unchanged. */
  lemma CanonicalRoundTrip(t: ToleranceSyntax)
    requires WellFormed(t) && Canonical(t)
    ensures ParseTolerance(Render(t)) == Some(t)
  {
    StripRendered(t);
    if t.dot {
      DotSplit(t);
    } else {
      assert Body(t) == t.fraction;
    }
  }

  // ---------------------------------------------------------------------------------------------
  // parseFloat on a valid tolerance string

  function DigitsValue(d: string): nat
    requires AllDigits(d)
  {
    if |d| == 0 then 0
    else 10 * DigitsValue(d[..|d| - 1]) + ((d[|d| - 1] as int) - ('0' as int))
  }

  /** The value of the digits after the point, read from the last digit back: 0.d1d2... */
  function FractionValue(d: string): (r: real)
    requires AllDigits(d)
  {
    if |d| == 0 then 0.0
    else (((d[0] as int) - ('0' as int)) as real + FractionValue(d[1..])) / 10.0
  }

  /** The number a reading denotes; parseFloat stops at the unit, so the unit plays no part. */
  function NumberValue(t: ToleranceSyntax): real
    requires WellFormed(t)
  {
    var magnitude := if t.dot then DigitsValue(t.whole) as real + FractionValue(t.fraction)
                     else DigitsValue(t.fraction) as real;
    if t.sign == "-" then -magnitude else magnitude
  }

  function ParseFloat(s: string): real
    requires ParseTolerance(s).Some?
  {
    NumberValue(ParseTolerance(s).value)
  }

  /** The digits after the point denote a value in [0, 1). */
  lemma {:induction false} FractionValueBounds(d: string)
    requires AllDigits(d)
    ensures 0.0 <= FractionValue(d) < 1.0
  {
    if |d| > 0 {
      assert AllDigits(d[1..]) by {
        assert forall i | 0 <= i < |d[1..]| :: d[1..][i] == d[i + 1];
      }
      FractionValueBounds(d[1..]);
    }
  }

  /** parseFloat of a valid tolerance string is negative only after a leading minus sign. */
  lemma ParseFloatSign(s: string)
    requires ParseTolerance(s).Some?
    ensures s[0] == '-' ==> ParseFloat(s) <= 0.0
    ensures s[0] != '-' ==> ParseFloat(s) >= 0.0
  {
    var t := ParseTolerance(s).value;
    RenderParts(t);
    assert s == t.sign + Body(t) + t.unit;
    if t.sign == "" {
      assert s[0] == Body(t)[0];
      assert IsDigit(Body(t)[0]) || Body(t)[0] == '.' by {
        if |t.whole| > 0 {
          assert Body(t)[0] == t.whole[0];
        } else if !t.dot {
          assert Body(t)[0] == t.fraction[0];
        }
      }
    } else {
      assert s[0] == t.sign[0];
    }
    FractionValueBounds(t.fraction);
  }

  // ---------------------------------------------------------------------------------------------
  // checkOptions

  predicate ValidDirection(direction: string) {
    direction == "" || direction == "vertical" || direction == "horizontal" || direction == "both"
  }

  predicate ValidBox(box: string) {
    box == "" || box == "border-box" || box == "content-box"
  }

  /** A tolerance is absent, a number other than NaN, or a string the pattern accepts. */
  ghost predicate ValidToleranceArg(t: ToleranceArg) {
    t.Unset? || t.Number? || (t.Text? && MatchesTolerancePattern(t.s))
  }

  /** checkOptions: the first invalid option, in the order direction, box, tolerance, is reported. */
  function CheckOptions(o: Options): (r: Result<()>)
    ensures r.Ok? <==> ValidDirection(o.direction) && ValidBox(o.box) && ValidToleranceArg(o.tolerance)
    ensures !ValidDirection(o.direction) ==> r == Err(InvalidDirection)
    ensures ValidDirection(o.direction) && !ValidBox(o.box) ==> r == Err(InvalidBox)
    ensures ValidDirection(o.direction) && ValidBox(o.box) && !ValidToleranceArg(o.tolerance) ==> r == Err(InvalidTolerance)
    ensures r.Ok? ==> ValidToleranceValue(o.tolerance)
  {
    if o.direction != "" && !(o.direction == "vertical" || o.direction == "horizontal" || o.direction == "both") then
      Err(InvalidDirection)
    else if o.box != "" && !(o.box == "border-box" || o.box == "content-box") then
      Err(InvalidBox)
    else if !o.tolerance.Unset? then
      var isNum := IsNumber(o.tolerance);
      var isNumWithUnit := IsString(o.tolerance) && ParseTolerance(o.tolerance.s).Some?;
      assert o.tolerance.Text? ==> (ParseTolerance(o.tolerance.s).Some? <==> MatchesTolerancePattern(o.tolerance.s)) by {
        if o.tolerance.Text? {
          ParseMatchesPattern(o.tolerance.s);
        }
      }
      if !(isNum || isNumWithUnit) then Err(InvalidTolerance) else Ok(())
    else Ok(())
  }

  // ---------------------------------------------------------------------------------------------
  // The tolerance setting of _prepareConfig

  datatype ToleranceMode = Add | Multiply

  /** `add`: a pixel amount; `multiply`: a factor of the container size. */
  datatype Tolerance = Tolerance(mode: ToleranceMode, amount: real)

  /** JavaScript's `s.slice(-3)`: the last three characters, or the whole of a shorter string. */
  function SliceLast3(s: string): (r: string)
    ensures |r| == if |s| >= 3 then 3 else |s|
    ensures r == s[|s| - |r|..]
  {
    if |s| >= 3 then s[|s| - 3..] else s
  }

  /** `slice(-3) === "px"` holds for the string "px" alone. */
  lemma SliceLast3IsPx(s: string)
    ensures SliceLast3(s) == "px" <==> s == "px"
  {
  }

  predicate ValidToleranceValue(t: ToleranceArg) {
    t.Unset? || t.Number? || (t.Text? && ParseTolerance(t.s).Some?)
  }

  /**
   * The tolerance as _prepareConfig stores it. A number is added as pixels; a string goes through
   * the `slice(-3) === "px"` test, which no valid string passes, so every string, "10px" as much as
   * "10%", becomes the factor `value / 100 + 1`.
   */
  function ToleranceSetting(t: ToleranceArg): (r: Tolerance)
    requires ValidToleranceValue(t)
    ensures t.Unset? ==> r == Tolerance(Add, 0.0)
    ensures t.Number? ==> r == Tolerance(Add, t.n)
    ensures t.Text? ==> r.mode == Multiply && r.amount == ParseFloat(t.s) / 100.0 + 1.0
  {
    if t.Unset? then Tolerance(Add, 0.0)
    else
      var add := IsNumber(t) || SliceLast3(t.s) == "px";
      assert t.Text? ==> SliceLast3(t.s) != "px" by {
        if t.Text? {
          SliceLast3IsPx(t.s);
          assert StripUnit("px") == ("", "px");
        }
      }
      var value := if t.Number? then t.n else ParseFloat(t.s);
      if add then Tolerance(Add, value) else Tolerance(Multiply, value / 100.0 + 1.0)
  }

  /** The setting of a rendered reading is the factor built from the number it denotes. */
  lemma SettingOfReading(u: ToleranceSyntax)
    requires WellFormed(u) && Canonical(u)
    ensures ParseTolerance(Render(u)).Some?
    ensures ToleranceSetting(Text(Render(u))) == Tolerance(Multiply, NumberValue(u) / 100.0 + 1.0)
  {
    CanonicalRoundTrip(u);
    var s := Render(u);
    assert ParseFloat(s) == NumberValue(u);
    var r := ToleranceSetting(Text(s));
    assert r.mode == Multiply && r.amount == NumberValue(u) / 100.0 + 1.0;
  }

  /** parseFloat stops before the unit. */
  lemma NumberValueIgnoresUnit(t: ToleranceSyntax, unit: string)
    requires WellFormed(t)
    requires unit == "" || unit == "px" || unit == "%"
    ensures WellFormed(t.(unit := unit)) && NumberValue(t.(unit := unit)) == NumberValue(t)
  {
  }

  /** The unit of a string tolerance is ignored: "Npx", "N%" and "N" give the setting of the reading as written. */
  lemma UnitIgnored(t: ToleranceSyntax, unit: string)
    requires WellFormed(t) && Canonical(t)
    requires unit == "" || unit == "px" || unit == "%"
    ensures ParseTolerance(Render(t.(unit := unit))).Some? && ParseTolerance(Render(t)).Some?
    ensures ToleranceSetting(Text(Render(t.(unit := unit)))) == ToleranceSetting(Text(Render(t)))
  {
    var u := t.(unit := unit);
    NumberValueIgnoresUnit(t, unit);
    SettingOfReading(u);
    SettingOfReading(t);
  }

  lemma DigitsOfTen()
    ensures AllDigits("10") && DigitsValue("10") == 10
  {
    assert "10"[..1] == "1";
    assert DigitsValue("1") == 1 by {
      assert "1"[..0] == "";
    }
  }

  /** For instance "10px" is read as a factor of 1.1, not as 10 pixels. */
  lemma TenPixelsIsAFactor()
    ensures ParseTolerance("10px").Some?
    ensures ToleranceSetting(Text("10px")) == Tolerance(Multiply, 1.1)
  {
    var t := ToleranceSyntax("", "", false, "10", "px");
    DigitsOfTen();
    assert NumberValue(t) == 10.0;
    SettingOfReading(t);
    assert Render(t) == "10px";
  }

  /** "0%" is read as the factor 1. */
  lemma ZeroPercentIsFactorOne()
    ensures ParseTolerance("0%").Some?
    ensures ToleranceSetting(Text("0%")) == Tolerance(Multiply, 1.0)
  {
    var t := ToleranceSyntax("", "", false, "0", "%");
    assert Render(t) == "0%";
    CanonicalRoundTrip(t);
    assert ParseTolerance("0%") == Some(t);
    assert DigitsValue("0") == 0 by {
      assert "0"[..0] == "";
    }
    assert NumberValue(t) == 0.0;
    assert ParseFloat("0%") == 0.0;
  }

}
