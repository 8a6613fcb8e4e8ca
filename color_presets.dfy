/** The colour controls of the newer map module: four sliders (hue-rotate, sepia,
    saturate, brightness), a preset selector whose options are CSS filter strings, and
    the tile pane's filter built from the sliders. Choosing a preset parses it into the
    four values, starting from the defaults; `none` resets. Numbers are exact decimals
    here (`None` is NaN); the range inputs' own sanitising of an assigned value is not
    part of this model, since their attributes are not shown. */
module ColorPresets {
  import opened Wrappers
  import opened Text
  import opened PixelCoords

  // ---------------------------------------------------------------------------
  // parseFloat

  function Pow10Nat(k: nat): (p: nat)
    ensures p >= 1
  {
    if k == 0 then 1 else 10 * Pow10Nat(k - 1)
  }

  function Pow10(e: int): (p: real)
    ensures p > 0.0
  {
    if e >= 0 then Pow10Nat(e) as real else 1.0 / Pow10Nat(-e) as real
  }

  /** The value of the digits after the decimal point. */
  function Fraction(fp: string): (f: real)
    requires AllDigits(fp)
    ensures 0.0 <= f
  {
    DigitsValue(fp) as real / Pow10Nat(|fp|) as real
  }

  /** The exponent of a `e`/`E` part, 0 when `s` does not start with a complete one. */
  function ExponentOf(s: string): int {
    if s == [] || (s[0] != 'e' && s[0] != 'E') then 0
    else
      var t := s[1..];
      var negative := t != [] && t[0] == '-';
      var u := if t != [] && (t[0] == '-' || t[0] == '+') then t[1..] else t;
      var d := DigitPrefix(u);
      var v: int := if AllDigits(d) then DigitsValue(d) else 0;
      if negative then -v else v
  }

  /** `parseFloat(s)` (section 21.1.2.12 of ECMA-262): skip white space, read an
      optional sign and the longest decimal literal, that is digits, an optional point
      with digits, an optional exponent, with at least one digit before the exponent;
      NaN (`None`) when there is none. */
  function ParseFloat(s: string): Option<real> {
    var t := TrimStart(s);
    if t != [] && t[0] == '-' then Negate(Unsigned(t[1..]))
    else if t != [] && t[0] == '+' then Unsigned(t[1..])
    else Unsigned(t)
  }

  function Negate(r: Option<real>): Option<real> {
    if r.None? then None else Some(-r.value)
  }

  /** The longest unsigned decimal literal at the start of `u`. */
  function Unsigned(u: string): Option<real> {
    var ip := DigitPrefix(u);
    AfterWhole(ip, u[|ip|..])
  }

  /** The literal once its whole digits `ip` are read and `rest` follows them. */
  function AfterWhole(ip: string, rest: string): Option<real>
    requires AllDigits(ip)
  {
    var hasDot := rest != [] && rest[0] == '.';
    var fp := if hasDot then DigitPrefix(rest[1..]) else [];
    if ip == [] && fp == [] then None
    else
      var after := if hasDot then rest[1 + |fp|..] else rest;
      Some((DigitsValue(ip) as real + Fraction(fp)) * Pow10(ExponentOf(after)))
  }

  /** A text starting with a digit is read without white space or sign. */
  lemma ParseFloatUnsigned(s: string)
    requires s != [] && IsDigit(s[0])
    ensures ParseFloat(s) == Unsigned(s)
  {
    TrimStartKeeps(s);
  }

  /** Whole digits followed by neither a point nor an exponent are the number. */
  lemma AfterWholeInteger(ip: string, rest: string)
    requires ip != [] && AllDigits(ip)
    requires rest == [] || (rest[0] != '.' && rest[0] != 'e' && rest[0] != 'E')
    ensures AfterWhole(ip, rest) == Some(DigitsValue(ip) as real)
  {
    assert ExponentOf(rest) == 0;
    assert Pow10(0) == 1.0;
    assert Fraction([]) == 0.0;
  }

  /** `parseFloat` reads a numeral back, ignoring a unit after it. */
  lemma ParseFloatOfNumeral(n: nat, rest: string)
    requires rest == [] || (!IsDigit(rest[0]) && rest[0] != '.' && rest[0] != 'e' && rest[0] != 'E')
    ensures ParseFloat(IntToString(n) + rest) == Some(n as real)
  {
    var digits := NatToString(n);
    var s := digits + rest;
    assert s[0] == digits[0];
    ParseFloatUnsigned(s);
    DigitPrefixAll(digits, rest);
    assert s[|digits|..] == rest;
    AfterWholeInteger(digits, rest);
  }

  /** `parseFloat` of a decimal `i.f`: the whole part plus the fraction. */
  lemma ParseFloatOfDecimal(ip: string, fp: string, rest: string)
    requires ip != [] && AllDigits(ip) && AllDigits(fp)
    requires rest == [] || (!IsDigit(rest[0]) && rest[0] != 'e' && rest[0] != 'E')
    ensures ParseFloat(ip + "." + fp + rest) == Some(DigitsValue(ip) as real + Fraction(fp))
  {
    var tail := ['.'] + (fp + rest);
    var s := ip + tail;
    assert s == ip + "." + fp + rest;
    ParseFloatUnsigned(s);
    DigitPrefixAll(ip, tail);
    assert s[|ip|..] == tail;
    DigitPrefixAll(fp, rest);
    assert tail[1..] == fp + rest;
    assert tail[1 + |fp|..] == rest;
    AfterWholeDecimal(ip, fp, rest, tail);
  }

  lemma AfterWholeDecimal(ip: string, fp: string, rest: string, tail: string)
    requires ip != [] && AllDigits(ip) && AllDigits(fp)
    requires rest == [] || (rest[0] != 'e' && rest[0] != 'E')
    requires tail != [] && tail[0] == '.' && |fp| < |tail|
    requires DigitPrefix(tail[1..]) == fp && tail[1 + |fp|..] == rest
    ensures AfterWhole(ip, tail) == Some(DigitsValue(ip) as real + Fraction(fp))
  {
    assert ExponentOf(rest) == 0;
    var m := DigitsValue(ip) as real + Fraction(fp);
    assert m * Pow10(0) == m;
  }

  // ---------------------------------------------------------------------------
  // The preset parser

  /** The four values of `filterValues`. */
  datatype FilterValues = FilterValues(hueRotate: Option<real>, sepia: Option<real>,
                                       saturate: Option<real>, brightness: Option<real>)

  /** The defaults every preset starts from, and that `resetFilters` restores. */
  const Defaults := FilterValues(Some(0.0), Some(0.0), Some(100.0), Some(100.0))

  /** The token's property: the text before its first `(`; the empty text when it
      has none, since `substring(0, -1)` is empty. */
  function Property(token: string): string {
    JsSubstring(token, 0, IndexOf(token, '('))
  }

  /** The token's value: the text between its first `(` and its first `)`, with
      `substring`'s clamping and swapping of the two ends. */
  function Argument(token: string): string {
    JsSubstring(token, IndexOf(token, '(') + 1, IndexOf(token, ')'))
  }

  /** saturate and brightness: the number as it is after a `%`, a factor otherwise. */
  function Scaled(v: string): (r: Option<real>)
    ensures '%' in v ==> r == ParseFloat(v)
    ensures '%' !in v && ParseFloat(v).Some? ==> r == Some(ParseFloat(v).value * 100.0)
    ensures ParseFloat(v).None? ==> r.None?
  {
    var n := ParseFloat(v);
    if '%' in v then n else if n.None? then None else Some(n.value * 100.0)
  }

  function AsReal(n: Option<int>): Option<real> {
    if n.None? then None else Some(n.value as real)
  }

  /** The `switch` on one token. */
  function ApplyToken(fv: FilterValues, token: string): (r: FilterValues)
    ensures Property(token) !in {"hue-rotate", "sepia", "saturate", "brightness"} ==> r == fv
  {
    Assign(fv, Property(token), Argument(token))
  }

  /** The `switch (property)` with the token's value `v`. */
  function Assign(fv: FilterValues, p: string, v: string): (r: FilterValues)
    ensures p !in {"hue-rotate", "sepia", "saturate", "brightness"} ==> r == fv
    ensures p == "hue-rotate" ==> r.(hueRotate := fv.hueRotate) == fv
    ensures p == "hue-rotate" && r.hueRotate.Some? ==> r.hueRotate.value.Floor as real == r.hueRotate.value
    ensures p == "sepia" ==> r.(sepia := fv.sepia) == fv && r.sepia == ParseFloat(v)
    ensures p == "saturate" ==> r.(saturate := fv.saturate) == fv
    ensures p == "brightness" ==> r.(brightness := fv.brightness) == fv
  {
    if p == "hue-rotate" then fv.(hueRotate := AsReal(ParseIntAuto(v)))
    else if p == "sepia" then fv.(sepia := ParseFloat(v))
    else if p == "saturate" then fv.(saturate := Scaled(v))
    else if p == "brightness" then fv.(brightness := Scaled(v))
    else fv
  }

  /** The `forEach` over the tokens, left to right. */
  function ApplyAll(fv: FilterValues, tokens: seq<string>): FilterValues
    decreases |tokens|
  {
    if tokens == [] then fv else ApplyAll(ApplyToken(fv, tokens[0]), tokens[1..])
  }

  /** What a preset sets: its space-separated tokens applied to the defaults. */
  function PresetValues(preset: string): FilterValues {
    ApplyAll(Defaults, Split(preset, ' '))
  }

  /** The parser as the handler runs it: `filterValues` starts at the defaults and
      each token of `split(' ')` updates it in place. */
  method ParsePreset(preset: string) returns (filterValues: FilterValues)
    ensures filterValues == PresetValues(preset)
  {
    filterValues := ApplyTokens(Defaults, Split(preset, ' '));
  }

  /** The `forEach` loop: the tokens applied in order to `filterValues`. */
  method ApplyTokens(start: FilterValues, tokens: seq<string>) returns (filterValues: FilterValues)
    ensures filterValues == ApplyAll(start, tokens)
  {
    filterValues := start;
    var i := 0;
    while i < |tokens|
      invariant 0 <= i <= |tokens|
      invariant ApplyAll(filterValues, tokens[i..]) == ApplyAll(start, tokens)
    {
      ApplyAllStep(filterValues, tokens[i..]);
      assert tokens[i..][0] == tokens[i] && tokens[i..][1..] == tokens[i + 1..];
      filterValues := ApplyToken(filterValues, tokens[i]);
      i := i + 1;
    }
  }

  /** A token `name(arg)` has property `name` and value `arg`. */
  lemma TokenParts(name: string, arg: string)
    requires '(' !in name && ')' !in name && '(' !in arg && ')' !in arg
    ensures Property(name + "(" + arg + ")") == name
    ensures Argument(name + "(" + arg + ")") == arg
  {
    var t := name + "(" + arg + ")";
    assert t == name + ['('] + (arg + ")");
    IndexOfAfter(name, arg + ")", '(');
    var a := name + "(" + arg;
    assert t == a + [')'] + [];
    assert ')' !in a;
    IndexOfAfter(a, [], ')');
    assert t[..|name|] == name;
    assert t[|name| + 1..|a|] == arg;
  }

  /** A token whose value is a whole number followed by a unit sets its property:
      hue-rotate to the number (unless the number is 0 and the unit starts with `x`,
      which is the hexadecimal prefix), sepia to the number, saturate and brightness to the
      number after `%` and to 100 times it without. */
  lemma NumberTokenSets(fv: FilterValues, name: string, n: nat, unit: string)
    requires name in {"hue-rotate", "sepia", "saturate", "brightness"}
    requires '(' !in unit && ')' !in unit
    requires unit == [] || (!IsDigit(unit[0]) && unit[0] != '.' && unit[0] != 'e' && unit[0] != 'E')
    ensures var r := ApplyToken(fv, NumberToken(name, n, unit));
            && (name == "hue-rotate" && (n > 0 || unit == [] || (unit[0] != 'x' && unit[0] != 'X'))
                ==> r == fv.(hueRotate := Some(n as real)))
            && (name == "sepia" ==> r == fv.(sepia := Some(n as real)))
            && (name == "saturate" ==> r == fv.(saturate := Some(if '%' in unit then n as real else 100.0 * n as real)))
            && (name == "brightness" ==> r == fv.(brightness := Some(if '%' in unit then n as real else 100.0 * n as real)))
  {
    var arg := NumberArg(n, unit);
    TokenParts(name, arg);
    TokenApply(fv, name, arg, NumberToken(name, n, unit));
    AssignNumber(fv, name, n, unit);
  }

  /** The hue is read by `parseInt` without a radix, so a `0x` prefix makes it
      hexadecimal: `hue-rotate(0x<h><unit>)` sets the hue to the value of the hex
      digits `h` (`HexHueExample`: `0x10deg` gives 0x10de, 4318). */
  lemma HexHueToken(fv: FilterValues, h: string, unit: string)
    requires h != [] && AllHex(h) && (unit == [] || !IsHexDigit(unit[0]))
    requires '(' !in unit && ')' !in unit
    ensures ApplyToken(fv, "hue-rotate" + "(" + ("0x" + h + unit) + ")")
            == fv.(hueRotate := Some(HexValue(h) as real))
  {
    var arg := "0x" + h + unit;
    assert '(' !in h && ')' !in h by {
      forall i | 0 <= i < |h| ensures h[i] != '(' && h[i] != ')' {
        assert IsHexDigit(h[i]);
      }
    }
    assert '(' !in arg && ')' !in arg by {
      assert forall c :: c in arg ==> c in "0x" || c in h || c in unit;
    }
    TokenParts("hue-rotate", arg);
    TokenApply(fv, "hue-rotate", arg, "hue-rotate" + "(" + arg + ")");
    ParseIntAutoOfHex(h, unit);
  }

  /** A token whose parts are known is the `switch` on those parts. */
  lemma TokenApply(fv: FilterValues, name: string, arg: string, token: string)
    requires token == name + "(" + arg + ")"
    requires Property(name + "(" + arg + ")") == name && Argument(name + "(" + arg + ")") == arg
    ensures ApplyToken(fv, token) == Assign(fv, name, arg)
  {
  }

  /** The value `n` followed by `unit`, which holds no parenthesis. */
  function NumberArg(n: nat, unit: string): (arg: string)
    requires '(' !in unit && ')' !in unit
    ensures '(' !in arg && ')' !in arg && ('%' in arg <==> '%' in unit)
  {
    NumeralLacks(n, '('); NumeralLacks(n, ')'); NumeralLacks(n, '%');
    IntToString(n) + unit
  }

  lemma AssignNumber(fv: FilterValues, name: string, n: nat, unit: string)
    requires name in {"hue-rotate", "sepia", "saturate", "brightness"}
    requires '(' !in unit && ')' !in unit
    requires unit == [] || (!IsDigit(unit[0]) && unit[0] != '.' && unit[0] != 'e' && unit[0] != 'E')
    ensures var r := Assign(fv, name, NumberArg(n, unit));
            && (name == "hue-rotate" && (n > 0 || unit == [] || (unit[0] != 'x' && unit[0] != 'X'))
                ==> r == fv.(hueRotate := Some(n as real)))
            && (name == "sepia" ==> r == fv.(sepia := Some(n as real)))
            && (name == "saturate" ==> r == fv.(saturate := Some(if '%' in unit then n as real else 100.0 * n as real)))
            && (name == "brightness" ==> r == fv.(brightness := Some(if '%' in unit then n as real else 100.0 * n as real)))
  {
    var arg := NumberArg(n, unit);
    ParseFloatOfNumeral(n, unit);
    assert ParseFloat(arg) == Some(n as real);
    if name == "hue-rotate" && (n > 0 || unit == [] || (unit[0] != 'x' && unit[0] != 'X')) {
      ParseIntAutoOfNumeral(n, unit);
      assert AsReal(ParseIntAuto(arg)) == Some(n as real);
    }
  }

  /** A preset written as tokens joined by single spaces is parsed token by token. */
  lemma PresetOfTokens(tokens: seq<string>)
    requires |tokens| >= 1 && forall i :: 0 <= i < |tokens| ==> ' ' !in tokens[i]
    ensures PresetValues(Join(tokens, " ")) == ApplyAll(Defaults, tokens)
  {
    SplitJoin(tokens, ' ');
  }

  /** A later token for the same property overrides an earlier one. */
  lemma LaterTokenWins(fv: FilterValues, t1: string, t2: string)
    requires Property(t1) == Property(t2)
    ensures ApplyToken(ApplyToken(fv, t1), t2) == ApplyToken(fv, t2)
  {
  }

  /** Tokens for different properties do not interfere: their order does not matter. */
  lemma DistinctTokensCommute(fv: FilterValues, t1: string, t2: string)
    requires Property(t1) != Property(t2)
    ensures ApplyToken(ApplyToken(fv, t1), t2) == ApplyToken(ApplyToken(fv, t2), t1)
  {
    AssignCommute(fv, Property(t1), Argument(t1), Property(t2), Argument(t2));
  }

  /** Assignments to different properties commute. */
  lemma AssignCommute(fv: FilterValues, p1: string, v1: string, p2: string, v2: string)
    requires p1 != p2
    ensures Assign(Assign(fv, p1, v1), p2, v2) == Assign(Assign(fv, p2, v2), p1, v1)
  {
  }

  /** The token `name(<n><unit>)`. */
  function NumberToken(name: string, n: nat, unit: string): (t: string)
    requires '(' !in unit && ')' !in unit
    ensures t == name + "(" + IntToString(n) + unit + ")"
  {
    name + "(" + NumberArg(n, unit) + ")"
  }

  /** A preset of the usual shape, `sepia(s%) saturate(k) hue-rotate(hdeg)`: sepia s,
      saturate 100·k, hue-rotate h, and brightness left at its default. */
  lemma SepiaSaturateHue(s: nat, k: nat, h: nat, preset: string)
    requires preset == Join([NumberToken("sepia", s, "%"), NumberToken("saturate", k, ""),
                             NumberToken("hue-rotate", h, "deg")], " ")
    ensures PresetValues(preset) == FilterValues(Some(h as real), Some(s as real), Some(100.0 * k as real), Some(100.0))
  {
    var t1, t2, t3 := NumberToken("sepia", s, "%"), NumberToken("saturate", k, ""), NumberToken("hue-rotate", h, "deg");
    SpaceFree("sepia", s, "%");
    SpaceFree("saturate", k, "");
    SpaceFree("hue-rotate", h, "deg");
    ThreeTokens(t1, t2, t3, preset);
    SepiaStep(Defaults, s, t1);
    var f1 := Defaults.(sepia := Some(s as real));
    SaturateStep(f1, k, t2);
    HueStep(f1.(saturate := Some(100.0 * k as real)), h, t3);
  }

  /** A preset of three space-free tokens applies them left to right. */
  lemma ThreeTokens(t1: string, t2: string, t3: string, preset: string)
    requires ' ' !in t1 && ' ' !in t2 && ' ' !in t3 && preset == Join([t1, t2, t3], " ")
    ensures PresetValues(preset) == ApplyToken(ApplyToken(ApplyToken(Defaults, t1), t2), t3)
  {
    PresetOfTokens([t1, t2, t3]);
    ApplyThree(Defaults, t1, t2, t3);
  }

  lemma SepiaStep(fv: FilterValues, s: nat, t: string)
    requires t == NumberToken("sepia", s, "%")
    ensures ApplyToken(fv, t) == fv.(sepia := Some(s as real))
  {
    NumberTokenSets(fv, "sepia", s, "%");
  }

  lemma SaturateStep(fv: FilterValues, k: nat, t: string)
    requires t == NumberToken("saturate", k, "")
    ensures ApplyToken(fv, t) == fv.(saturate := Some(100.0 * k as real))
  {
    NumberTokenSets(fv, "saturate", k, "");
  }

  lemma HueStep(fv: FilterValues, h: nat, t: string)
    requires t == NumberToken("hue-rotate", h, "deg")
    ensures ApplyToken(fv, t) == fv.(hueRotate := Some(h as real))
  {
    NumberTokenSets(fv, "hue-rotate", h, "deg");
  }

  lemma ApplyThree(fv: FilterValues, t1: string, t2: string, t3: string)
    ensures ApplyAll(fv, [t1, t2, t3]) == ApplyToken(ApplyToken(ApplyToken(fv, t1), t2), t3)
  {
    assert [t1, t2, t3][1..] == [t2, t3] && [t2, t3][1..] == [t3] && [t3][1..] == [];
    ApplyAllStep(fv, [t1, t2, t3]);
    ApplyAllStep(ApplyToken(fv, t1), [t2, t3]);
    ApplyAllStep(ApplyToken(ApplyToken(fv, t1), t2), [t3]);
  }

  lemma ApplyAllStep(fv: FilterValues, tokens: seq<string>)
    requires tokens != []
    ensures ApplyAll(fv, tokens) == ApplyAll(ApplyToken(fv, tokens[0]), tokens[1..])
  {
  }

  lemma SpaceFree(name: string, n: nat, unit: string)
    requires '(' !in unit && ')' !in unit && ' ' !in name && ' ' !in unit
    ensures ' ' !in NumberToken(name, n, unit)
  {
    if ' ' in IntToString(n) { NumeralChars(n, ' '); }
  }

  /** `none` holds no `(`, so even the parser would give the defaults: the reset
      branch agrees with it. */
  lemma NoneIsDefaults(preset: string)
    requires preset == "none"
    ensures PresetValues(preset) == Defaults
  {
    assert '(' !in preset && ' ' !in preset;
    assert IndexOf(preset, '(') == -1;
    assert Split(preset, ' ') == [preset];
    assert Property(preset) == [];
    assert ApplyToken(Defaults, preset) == Defaults;
    assert [preset][1..] == [];
    assert ApplyAll(Defaults, [preset]) == ApplyAll(ApplyToken(Defaults, preset), []);
  }

  // ---------------------------------------------------------------------------
  // The filter and the controls

  /** One function of the CSS filter: its name, amount and unit. */
  datatype FilterPart = FilterPart(name: string, amount: Option<real>, unit: string)

  /** `updateFilter`'s template, in its fixed order: sepia, saturate, hue-rotate,
      brightness. */
  function Filter(fv: FilterValues): (f: seq<FilterPart>)
    ensures |f| == 4
    ensures f[0] == FilterPart("sepia", fv.sepia, "%")
    ensures f[1] == FilterPart("saturate", fv.saturate, "%")
    ensures f[2] == FilterPart("hue-rotate", fv.hueRotate, "deg")
    ensures f[3] == FilterPart("brightness", fv.brightness, "%")
  {
    [FilterPart("sepia", fv.sepia, "%"), FilterPart("saturate", fv.saturate, "%"),
     FilterPart("hue-rotate", fv.hueRotate, "deg"), FilterPart("brightness", fv.brightness, "%")]
  }

  datatype Slider = HueSlider | SepiaSlider | SaturateSlider | BrightnessSlider

  /** The sliders, the preset selector and the tile pane's filter. */
  class Controls {
    var sliders: FilterValues
    var preset: string
    var filter: seq<FilterPart>

    /** The filter shows what the sliders hold. */
    predicate Valid()
      reads this
    {
      filter == Filter(sliders)
    }

    /** The page's start: the sliders hold their initial values and the script's
        initial `updateFilter` runs. */
    constructor(initial: FilterValues, initialPreset: string)
      ensures sliders == initial && preset == initialPreset && Valid()
    {
      sliders := initial;
      preset := initialPreset;
      filter := Filter(initial);
    }

    /** `updateFilter`: the filter of the four slider values. */
    method UpdateFilter()
      modifies this
      ensures filter == Filter(sliders) && sliders == old(sliders) && preset == old(preset)
    {
      filter := Filter(sliders);
    }

    /** `resetFilters`, the reset button: the defaults, preset `none`, a new filter. */
    method ResetFilters()
      modifies this
      ensures sliders == Defaults && preset == "none" && Valid()
    {
      sliders := Defaults;
      preset := "none";
      UpdateFilter();
    }

    /** The preset selector's `change`, with the value now selected. */
    method OnPresetChange(selected: string)
      modifies this
      ensures selected == "none" ==> sliders == Defaults && preset == "none"
      ensures selected != "none" ==> sliders == PresetValues(selected) && preset == selected
      ensures Valid()
    {
      preset := selected;
      if selected == "none" {
        ResetFilters();
        return;
      }
      var filterValues := ParsePreset(selected);
      sliders := filterValues;
      UpdateFilter();
    }

    /** A slider's `input`: the moved slider takes its new value, the filter follows. */
    method OnInput(which: Slider, value: Option<real>)
      modifies this
      ensures sliders == match which
                         case HueSlider => old(sliders).(hueRotate := value)
                         case SepiaSlider => old(sliders).(sepia := value)
                         case SaturateSlider => old(sliders).(saturate := value)
                         case BrightnessSlider => old(sliders).(brightness := value)
      ensures preset == old(preset) && Valid()
    {
      match which {
        case HueSlider => sliders := sliders.(hueRotate := value);
        case SepiaSlider => sliders := sliders.(sepia := value);
        case SaturateSlider => sliders := sliders.(saturate := value);
        case BrightnessSlider => sliders := sliders.(brightness := value);
      }
      UpdateFilter();
    }
  }
}
