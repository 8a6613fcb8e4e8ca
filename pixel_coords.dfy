/** Conversions between the map's projected coordinates at the native zoom (where one
    projected unit is one pixel of the 31102 x 31102 image) and the integer pixel
    coordinates the application works with: the click rule of the two newer map
    scripts, the 0-based rule of the legacy script, `parseInt` on the typed coordinates,
    and the pan-to-pixel clamp. Leaflet's `project`/`unproject` are not modelled; where
    they matter they are parameters of a lemma. */
module PixelCoords {
  import opened Wrappers
  import opened Text

  /** The side of the image in pixels, and the largest pixel coordinate. */
  const ImageSize: int := 31102

  /** A point of the projected plane (what `map.project` gives and `unproject` takes). */
  datatype Point = Point(x: real, y: real)

  /** Integer pixel coordinates. */
  datatype Pixel = Pixel(x: int, y: int)

  /** `Math.min(Math.max(v, lo), hi)`. */
  function Clamp(v: int, lo: int, hi: int): int {
    if v < lo then lo else if v > hi then hi else v
  }

  lemma ClampFacts(v: int, lo: int, hi: int)
    requires lo <= hi
    ensures lo <= Clamp(v, lo, hi) <= hi
    ensures lo <= v <= hi ==> Clamp(v, lo, hi) == v
    ensures v < lo ==> Clamp(v, lo, hi) == lo
    ensures v > hi ==> Clamp(v, lo, hi) == hi
    ensures Clamp(Clamp(v, lo, hi), lo, hi) == Clamp(v, lo, hi)
  {
  }

  /** The click rule of one axis: `Math.floor(p) + 1`, clamped into [1, 31102]. */
  function ClickAxis(p: real): (k: int)
    ensures 1 <= k <= ImageSize
  {
    Clamp(p.Floor + 1, 1, ImageSize)
  }

  /** The pixel a click lands on, from the projected click point. */
  function ClickPixel(p: Point): (px: Pixel)
    ensures 1 <= px.x <= ImageSize && 1 <= px.y <= ImageSize
  {
    Pixel(ClickAxis(p.x), ClickAxis(p.y))
  }

  /** Projected cell [k, k+1) of the image maps to pixel k+1: cell (0, 0) is pixel (1, 1). */
  lemma ClickCell(p: real, k: int)
    requires 0 <= k < ImageSize && k as real <= p < (k + 1) as real
    ensures ClickAxis(p) == k + 1
  {
    assert p.Floor == k;
  }

  /** Clicks outside the image land on its nearest edge pixel. */
  lemma ClickOutside(p: real)
    ensures p < 0.0 ==> ClickAxis(p) == 1
    ensures p >= ImageSize as real ==> ClickAxis(p) == ImageSize
  {
    if p >= ImageSize as real { assert p.Floor >= ImageSize; }
  }

  /** The click rule is monotone: a point further right or down never gives a smaller pixel. */
  lemma ClickMonotone(p: real, q: real)
    requires p <= q
    ensures ClickAxis(p) <= ClickAxis(q)
  {
    assert p.Floor <= q.Floor;
  }

  /** The legacy script's rule: `Math.floor(p)` only, 0-based and unclamped. */
  function LegacyAxis(p: real): int {
    p.Floor
  }

  function LegacyPixel(p: Point): Pixel {
    Pixel(LegacyAxis(p.x), LegacyAxis(p.y))
  }

  /** Inside the image the legacy pixel is one less than the newer one; outside it
      leaves [0, 31102) where the newer rule clamps. */
  lemma LegacyAgainstClick(p: real)
    ensures 0.0 <= p < ImageSize as real ==> LegacyAxis(p) == ClickAxis(p) - 1
    ensures 0.0 <= p < ImageSize as real <==> 0 <= LegacyAxis(p) < ImageSize
    ensures p < 0.0 ==> LegacyAxis(p) < 0
  {
  }

  // ---------------------------------------------------------------------------
  // parseInt(s, 10), the reading of the typed coordinates

  /** The white space `parseInt` skips before the number (section 19.2.5 of ECMA-262:
      StrWhiteSpaceChar, that is WhiteSpace and LineTerminator). */
  predicate IsJsWhiteSpace(c: char) {
    || c == '\t' || c == '\U{000B}' || c == '\U{000C}' || c == ' ' || c == '\U{00A0}'
    || c == '\U{FEFF}' || c == '\n' || c == '\r' || c == '\U{2028}' || c == '\U{2029}'
    || c == '\U{1680}' || ('\U{2000}' <= c <= '\U{200A}') || c == '\U{202F}'
    || c == '\U{205F}' || c == '\U{3000}'
  }

  function TrimStart(s: string): (r: string)
    ensures |r| <= |s| && r == s[|s| - |r|..]
    ensures r == [] || !IsJsWhiteSpace(r[0])
    ensures forall i :: 0 <= i < |s| - |r| ==> IsJsWhiteSpace(s[i])
  {
    if s != [] && IsJsWhiteSpace(s[0]) then TrimStart(s[1..]) else s
  }

  /** The digits `parseInt` reads after the sign: the longest run of them, or NaN
      (`None`) when there is none. */
  function ParseUnsigned(u: string): (r: Option<int>)
    ensures r.Some? ==> r.value >= 0
  {
    var d := DigitPrefix(u);
    if d == [] then None else Some(DigitsValue(d))
  }

  /** `parseInt(s, 10)`: skip white space, read an optional sign and the longest run of
      digits after it; NaN (`None`) when there is no digit. */
  function ParseInt(s: string): Option<int> {
    var t := TrimStart(s);
    if t != [] && t[0] == '-' then
      match ParseUnsigned(t[1..])
      case None => None
      case Some(v) => Some(-v)
    else if t != [] && t[0] == '+' then ParseUnsigned(t[1..])
    else ParseUnsigned(t)
  }

  /** A text starting with a digit or a minus sign has no white space to skip. */
  lemma TrimStartKeeps(s: string)
    requires s != [] && (IsDigit(s[0]) || s[0] == '-')
    ensures TrimStart(s) == s
  {
    NotWhiteSpace(s[0]);
  }

  lemma NotWhiteSpace(c: char)
    requires IsDigit(c) || c == '-'
    ensures !IsJsWhiteSpace(c)
  {
  }

  /** A run of digits followed by a non-digit reads as its value. */
  lemma ParseUnsignedOfDigits(digits: string, rest: string)
    requires digits != [] && AllDigits(digits) && (rest == [] || !IsDigit(rest[0]))
    ensures ParseUnsigned(digits + rest) == Some(DigitsValue(digits))
  {
    DigitPrefixAll(digits, rest);
  }

  /** Text starting with a digit is read without white space or sign ... */
  lemma ParseIntOfUnsigned(u: string)
    requires u != [] && IsDigit(u[0])
    ensures ParseInt(u) == ParseUnsigned(u)
  {
    TrimStartKeeps(u);
  }

  /** ... and a minus sign in front of it negates the number. */
  lemma ParseIntOfMinus(u: string, s: string)
    requires ParseUnsigned(u).Some? && s == "-" + u
    ensures ParseInt(s) == Some(-ParseUnsigned(u).value)
  {
    TrimStartKeeps(s);
    assert s[1..] == u;
  }

  /** The numeral of a number, then the rest: its digits, after a minus sign when the
      number is negative. */
  lemma NumeralThenRest(n: int, rest: string)
    ensures n < 0 ==> IntToString(n) + rest == "-" + (NatToString(-n) + rest)
    ensures n >= 0 ==> IntToString(n) + rest == NatToString(n) + rest
    ensures n >= 0 ==> (NatToString(n) + rest)[0] == NatToString(n)[0]
  {
  }

  /** `parseInt` reads back what the template literal wrote, and ignores anything after
      the number that is not a digit. */
  lemma ParseIntOfNumeral(n: int, rest: string)
    requires rest == [] || !IsDigit(rest[0])
    ensures ParseInt(IntToString(n) + rest) == Some(n)
  {
    NumeralThenRest(n, rest);
    if n < 0 {
      ParseUnsignedOfDigits(NatToString(-n), rest);
      ParseIntOfMinus(NatToString(-n) + rest, IntToString(n) + rest);
    } else {
      ParseUnsignedOfDigits(NatToString(n), rest);
      ParseIntOfUnsigned(NatToString(n) + rest);
    }
  }

  /** A text that does not start (after white space and a sign) with a digit is NaN. */
  lemma ParseIntNaN(s: string)
    requires var t := TrimStart(s);
             var u := if t != [] && (t[0] == '-' || t[0] == '+') then t[1..] else t;
             u == [] || !IsDigit(u[0])
    ensures ParseInt(s) == None
  {
  }

  // ---------------------------------------------------------------------------
  // parseInt(s) without a radix, the reading of the hue of a colour preset

  predicate IsHexDigit(c: char) {
    IsDigit(c) || ('a' <= c <= 'f') || ('A' <= c <= 'F')
  }

  predicate AllHex(s: string) { forall i :: 0 <= i < |s| ==> IsHexDigit(s[i]) }

  function HexDigitValue(c: char): (v: nat)
    requires IsHexDigit(c)
    ensures v < 16
    ensures IsDigit(c) ==> v == c as int - '0' as int
  {
    if IsDigit(c) then c as int - '0' as int
    else if 'a' <= c <= 'f' then c as int - 'a' as int + 10
    else c as int - 'A' as int + 10
  }

  /** The value of a string of hexadecimal digits, most significant first. */
  function HexValue(s: string): nat
    requires AllHex(s)
  {
    if s == [] then 0 else HexValue(s[..|s| - 1]) * 16 + HexDigitValue(s[|s| - 1])
  }

  /** The longest prefix of hexadecimal digits. */
  function HexPrefix(s: string): (h: string)
    ensures h <= s && AllHex(h)
    ensures |h| < |s| ==> !IsHexDigit(s[|h|])
  {
    if s != [] && IsHexDigit(s[0]) then [s[0]] + HexPrefix(s[1..]) else []
  }

  lemma HexPrefixAll(h: string, rest: string)
    requires AllHex(h) && (rest == [] || !IsHexDigit(rest[0]))
    ensures HexPrefix(h + rest) == h
  {
    if h != [] {
      assert (h + rest)[1..] == h[1..] + rest;
      HexPrefixAll(h[1..], rest);
    }
  }

  /** The text after the sign starts with `0x` or `0X`. */
  predicate HexMarked(u: string) {
    |u| >= 2 && u[0] == '0' && (u[1] == 'x' || u[1] == 'X')
  }

  /** The number after the sign when no radix is given: after `0x` or `0X` the longest
      run of hexadecimal digits, otherwise the longest run of decimal digits; NaN
      (`None`) when that run is empty. */
  function ParseUnsignedAuto(u: string): (r: Option<int>)
    ensures r.Some? ==> r.value >= 0
    ensures !HexMarked(u) ==> r == ParseUnsigned(u)
  {
    if HexMarked(u) then
      var h := HexPrefix(u[2..]);
      if h == [] then None else Some(HexValue(h))
    else ParseUnsigned(u)
  }

  /** `parseInt(s)` with the radix left out (section 19.2.5 of ECMA-262, radix 0): skip
      white space, read an optional sign, then a hexadecimal number after a `0x` or
      `0X` prefix and a decimal one otherwise. */
  function ParseIntAuto(s: string): Option<int> {
    var t := TrimStart(s);
    if t != [] && t[0] == '-' then
      match ParseUnsignedAuto(t[1..])
      case None => None
      case Some(v) => Some(-v)
    else if t != [] && t[0] == '+' then ParseUnsignedAuto(t[1..])
    else ParseUnsignedAuto(t)
  }

  /** Without the `0x` prefix after the sign, leaving out the radix changes nothing:
      the text is read as `parseInt(s, 10)` reads it. */
  lemma ParseIntAutoDecimal(s: string)
    requires var t := TrimStart(s);
             var u := if t != [] && (t[0] == '-' || t[0] == '+') then t[1..] else t;
             !HexMarked(u)
    ensures ParseIntAuto(s) == ParseInt(s)
  {
    var t := TrimStart(s);
    if t != [] && t[0] == '-' {
      assert ParseUnsignedAuto(t[1..]) == ParseUnsigned(t[1..]);
    } else if t != [] && t[0] == '+' {
      assert ParseUnsignedAuto(t[1..]) == ParseUnsigned(t[1..]);
    } else {
      assert ParseUnsignedAuto(t) == ParseUnsigned(t);
    }
  }

  /** After `0x`, the hexadecimal digits are read, up to the first character that is
      not one. */
  lemma ParseIntAutoOfHex(h: string, rest: string)
    requires h != [] && AllHex(h) && (rest == [] || !IsHexDigit(rest[0]))
    ensures ParseIntAuto("0x" + h + rest) == Some(HexValue(h))
  {
    var s := "0x" + h + rest;
    TrimStartKeeps(s);
    assert s[2..] == h + rest;
    HexPrefixAll(h, rest);
  }

  /** `0x` with no hexadecimal digit after it is NaN. */
  lemma ParseIntAutoHexNaN(rest: string)
    requires rest == [] || !IsHexDigit(rest[0])
    ensures ParseIntAuto("0x" + rest) == None
  {
    var s := "0x" + rest;
    TrimStartKeeps(s);
    assert s[2..] == rest;
  }

  /** A hue of `0x10deg` is the hexadecimal 10de, not 0. */
  lemma HexHueExample()
    ensures ParseIntAuto("0x10deg") == Some(4318)
  {
    var h := "10de";
    assert "0x10deg" == "0x" + h + "g";
    ParseIntAutoOfHex(h, "g");
    assert HexValue(h[..1]) == 1 by { assert h[..1][..0] == []; }
    assert HexValue(h[..2]) == 16 by { assert h[..2][..1] == h[..1]; }
    assert HexValue(h[..3]) == 269 by { assert h[..3][..2] == h[..2]; }
    assert HexValue(h) == 4318 by { assert h[..3] == h[..|h| - 1]; }
  }

  /** A numeral is read back without a radix too, unless it is `0` followed by `x` or
      `X`, which reads as the hexadecimal prefix. */
  lemma ParseIntAutoOfNumeral(n: int, rest: string)
    requires rest == [] || !IsDigit(rest[0])
    requires n == 0 ==> rest == [] || (rest[0] != 'x' && rest[0] != 'X')
    ensures ParseIntAuto(IntToString(n) + rest) == Some(n)
  {
    NumeralThenRest(n, rest);
    var m := if n < 0 then -n else n;
    var u := NatToString(m) + rest;
    assert u[0] == NatToString(m)[0];
    if m > 0 {
      LeadingDigitNotZero(m);
    }
    assert !HexMarked(u);
    if n < 0 {
      var s := IntToString(n) + rest;
      TrimStartKeeps(s);
      assert s[1..] == u;
    } else {
      TrimStartKeeps(u);
    }
    ParseIntAutoDecimal(IntToString(n) + rest);
    ParseIntOfNumeral(n, rest);
  }

  /** The numeral of a positive number does not start with `0`. */
  lemma LeadingDigitNotZero(m: nat)
    requires m > 0
    ensures NatToString(m)[0] != '0'
  {
    var d := NatToString(m);
    if |d| == 1 {
      assert d[..0] == [];
      assert DigitsValue(d) == d[0] as int - '0' as int;
    }
  }

  // ---------------------------------------------------------------------------
  // panToPixel

  /** `panToPixel(x, y)`: NaN on either axis alerts and pans nowhere (`None`); otherwise
      each axis is clamped into [1, 31102] and that pixel is handed to `unproject`
      (with no offset). */
  function PanTarget(x: Option<int>, y: Option<int>): (r: Option<Pixel>)
    ensures r.None? <==> x.None? || y.None?
    ensures r.Some? ==> 1 <= r.value.x <= ImageSize && 1 <= r.value.y <= ImageSize
  {
    if x.None? || y.None? then None
    else Some(Pixel(Clamp(x.value, 1, ImageSize), Clamp(y.value, 1, ImageSize)))
  }

  /** The pan button: `parseInt` of both inputs, then `panToPixel`. */
  function PanFromInputs(xInput: string, yInput: string): Option<Pixel> {
    PanTarget(ParseInt(xInput), ParseInt(yInput))
  }

  /** In-range pixels are kept as they are, out-of-range ones go to the nearest edge,
      and clamping a clamped pixel changes nothing. */
  lemma PanClamps(x: int, y: int)
    ensures var r := PanTarget(Some(x), Some(y));
            && r.Some?
            && (1 <= x <= ImageSize ==> r.value.x == x)
            && (x < 1 ==> r.value.x == 1) && (x > ImageSize ==> r.value.x == ImageSize)
            && (1 <= y <= ImageSize ==> r.value.y == y)
            && (y < 1 ==> r.value.y == 1) && (y > ImageSize ==> r.value.y == ImageSize)
            && PanTarget(Some(r.value.x), Some(r.value.y)) == r
  {
  }

  /** Where the pan lands for the click rule: panning to pixel p and clicking the point
      it centres on gives p + 1, except at the last pixel, which stays; the pan rule and
      the click rule are not inverses. The one assumption about Leaflet is that
      `project` undoes `unproject` at that point. */
  lemma PanThenClick<L>(unproject: Point -> L, project: L -> Point, x: int, y: int)
    requires var t := PanTarget(Some(x), Some(y)).value;
             project(unproject(Point(t.x as real, t.y as real))) == Point(t.x as real, t.y as real)
    ensures var t := PanTarget(Some(x), Some(y)).value;
            var c := ClickPixel(project(unproject(Point(t.x as real, t.y as real))));
            && c.x == (if t.x < ImageSize then t.x + 1 else ImageSize)
            && c.y == (if t.y < ImageSize then t.y + 1 else ImageSize)
  {
    var t := PanTarget(Some(x), Some(y)).value;
    assert (t.x as real).Floor == t.x;
    assert (t.y as real).Floor == t.y;
  }
}
