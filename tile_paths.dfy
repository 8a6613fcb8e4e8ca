/** Where the tile pipeline stores a tile and how it reads the tile's coordinates back
    from the path: `image_name_and_folder_handler` writes `{zoom}/{x}/{y}.png` under the
    tiles root (joined the Windows way), and `get_zoom_x_y_from_tile_path` runs
    `re.search` with the pattern `static\\tiles\\(?P<zoom>\d+)\\(?P<x>\d+)\\(?P<y>\d+).png`
    over a normalised path. The search is modelled exactly for this pattern: leftmost
    start, greedy digit groups with backtracking, and the unescaped `.` that matches any
    character but a newline. Creating the directory is file-system I/O and is not part
    of this model. */
module TilePaths {
  import opened Wrappers
  import opened Text

  /** The drive and repository folders in front of `static`. */
  const Drive: string := "C:\\repos\\KJV_Search_Tools\\"

  /** The tiles root, written with a forward slash before `tiles` as in the source. */
  const TilesRoot: string := "C:\\repos\\KJV_Search_Tools\\static/tiles"

  /** The literal part of the pattern in front of the zoom group. */
  const Anchor: string := "static\\tiles\\"

  datatype TileIndex = TileIndex(zoom: int, x: int, y: int)

  /** `os.path.join(TilesRoot, "{zoom}/{x}/{y}.png")` with the Windows separator: the
      root does not end in a separator, so one backslash is put between the two. */
  function TilePath(zoom: int, x: int, y: int): string {
    TilesRoot + "\\" + RelativePath(IntToString(zoom), IntToString(x), IntToString(y))
  }

  /** The `"{zoom}/{x}/{y}.png"` of the handler, filled in. */
  function RelativePath(z: string, x: string, y: string): string {
    z + "/" + x + "/" + y + ".png"
  }

  /** The part of a normalised tile path after the anchor: the three numerals separated
      by backslashes, then the extension. */
  function GroupsText(z: string, x: string, y: string): string {
    z + "\\" + x + "\\" + y + ".png"
  }

  /** `os.path.normpath` on Windows, for paths without `.`/`..` parts or doubled
      separators: every forward slash becomes a backslash and nothing else changes. */
  function Normalize(s: string): (r: string)
    ensures |r| == |s|
    ensures forall i :: 0 <= i < |s| ==> r[i] == if s[i] == '/' then '\\' else s[i]
  {
    seq(|s|, i requires 0 <= i < |s| => if s[i] == '/' then '\\' else s[i])
  }

  /** The pattern's `.png`, with its `.` unescaped: any character but a newline at `k`,
      then the letters `png`. */
  predicate PngAt(s: string, k: nat) {
    k + 4 <= |s| && s[k] != '\n' && s[k + 1..k + 4] == "png"
  }

  /** One `(\d+)\\` of the pattern at the start of `r`: a greedy digit run that must
      be followed by a backslash can only take the whole run. The value read and the
      text after the backslash, or `None` when there is no such run. */
  function Field(r: string): (f: Option<(nat, string)>)
    ensures f.Some? ==> |f.value.1| < |r|
  {
    var d := DigitPrefix(r);
    if d == [] || |d| == |r| || r[|d|] != '\\' then None
    else Some((DigitsValue(d), r[|d| + 1..]))
  }

  /** The last group `(\d+).png` at the start of `r`: the greedy run is tried first, and
      when it fails, the run less its last digit (whose place the `.` then takes);
      shorter runs leave a digit where `png` must start and cannot match. */
  function LastField(r: string): Option<nat> {
    var d := DigitPrefix(r);
    if |d| >= 1 && PngAt(r, |d|) then Some(DigitsValue(d))
    else if |d| >= 2 && PngAt(r, |d| - 1) then Some(DigitsValue(d[..|d| - 1]))
    else None
  }

  /** The three groups of the pattern, read from the text after the anchor. */
  function Groups(r: string): (m: Option<TileIndex>)
    ensures m.Some? ==> m.value.zoom >= 0 && m.value.x >= 0 && m.value.y >= 0
  {
    match Field(r)
    case None => None
    case Some((zoom, r2)) =>
      match Field(r2)
      case None => None
      case Some((x, r3)) =>
        match LastField(r3)
        case None => None
        case Some(y) => Some(TileIndex(zoom, x, y))
  }

  /** The pattern matched at the very start of `s` (the attempt at one position of
      `re.search`). */
  function MatchAt(s: string): (m: Option<TileIndex>)
    ensures m.Some? ==> Anchor <= s
  {
    if Anchor <= s then Groups(s[|Anchor|..]) else None
  }

  /** `re.search`: the match at the leftmost position where the pattern matches, or
      `None` when it matches nowhere. */
  function Search(s: string): (m: Option<TileIndex>)
    decreases |s|
  {
    var here := MatchAt(s);
    if here.Some? || s == [] then here else Search(s[1..])
  }

  /** `get_zoom_x_y_from_tile_path`: the three groups as integers; `None` where
      `re.search` finds nothing and `.groupdict()` on its `None` raises. */
  function ZoomXY(tilePath: string): Option<TileIndex> {
    Search(tilePath)
  }

  // ---------------------------------------------------------------------------
  // Reading back what the handler writes

  lemma NormalizeConcat(a: string, b: string)
    ensures Normalize(a + b) == Normalize(a) + Normalize(b)
  {
  }

  lemma NumeralHasNoSlash(n: int)
    ensures '/' !in IntToString(n)
  {
    if '/' in IntToString(n) {
      NumeralChars(n, '/');
    }
  }

  lemma NormalizeRoot()
    ensures Normalize(TilesRoot + "\\") == Drive + Anchor
  {
  }

  lemma NormalizeRelative(z: string, x: string, y: string)
    requires '/' !in z && '/' !in x && '/' !in y
    ensures Normalize(RelativePath(z, x, y)) == GroupsText(z, x, y)
  {
  }

  /** The normalised path of a tile: the drive, the anchor, and the three numerals
      separated by backslashes. */
  lemma NormalizedTilePath(zoom: int, x: int, y: int)
    ensures Normalize(TilePath(zoom, x, y))
            == Drive + (Anchor + GroupsText(IntToString(zoom), IntToString(x), IntToString(y)))
  {
    var Z, X, Y := IntToString(zoom), IntToString(x), IntToString(y);
    NumeralHasNoSlash(zoom);
    NumeralHasNoSlash(x);
    NumeralHasNoSlash(y);
    NormalizeRelative(Z, X, Y);
    NormalizeRoot();
    NormalizeParts(TilesRoot + "\\", RelativePath(Z, X, Y), Drive + Anchor, GroupsText(Z, X, Y));
    Associate(Drive, Anchor, GroupsText(Z, X, Y));
  }

  lemma NormalizeParts(a: string, b: string, na: string, nb: string)
    requires Normalize(a) == na && Normalize(b) == nb
    ensures Normalize(a + b) == na + nb
  {
    NormalizeConcat(a, b);
  }

  lemma Associate(a: string, b: string, c: string)
    ensures a + b + c == a + (b + c)
  {
  }

  /** No position inside the drive part starts the anchor, so the search passes over it. */
  lemma {:induction false} SearchSkipsDrive(s: string, i: nat)
    requires Drive <= s && i <= |Drive|
    ensures Search(s[i..]) == Search(s[|Drive|..])
    decreases |Drive| - i
  {
    if i < |Drive| {
      assert |Drive| == 26;
      assert forall k :: 0 <= k < |Drive| - 1 ==> !(Drive[k] == 's' && Drive[k + 1] == 't');
      assert Drive[25] != 's';
      assert s[i] == Drive[i];
      assert i + 1 < |s| ==> s[i + 1] == (if i + 1 < |Drive| then Drive[i + 1] else s[i + 1]);
      assert !(Anchor <= s[i..]);
      assert s[i..][1..] == s[i + 1..];
      SearchSkipsDrive(s, i + 1);
    }
  }

  lemma SearchAfterDrive(rest: string)
    ensures Search(Drive + rest) == Search(rest)
  {
    var s := Drive + rest;
    SearchSkipsDrive(s, 0);
    assert s[0..] == s && s[|Drive|..] == rest;
  }

  /** A run of digits followed by a backslash is one field. */
  lemma FieldOfDigits(d: string, rest: string)
    requires d != [] && AllDigits(d)
    ensures Field(d + "\\" + rest) == Some((DigitsValue(d), rest))
  {
    var r := d + "\\" + rest;
    assert r == d + ("\\" + rest);
    DigitPrefixAll(d, "\\" + rest);
    assert r[|d|] == '\\';
    assert r[|d| + 1..] == rest;
  }

  /** A run of digits followed by `.png` is the last field. */
  lemma LastFieldOfDigits(d: string)
    requires d != [] && AllDigits(d)
    ensures LastField(d + ".png") == Some(DigitsValue(d))
  {
    var t := d + ".png";
    DigitPrefixAll(d, ".png");
    assert t[|d|] == '.' && t[|d| + 1..|d| + 4] == "png";
  }

  lemma MatchAfterAnchor(r: string)
    ensures MatchAt(Anchor + r) == Groups(r)
  {
    assert (Anchor + r)[..|Anchor|] == Anchor && (Anchor + r)[|Anchor|..] == r;
  }

  /** The groups read three digit runs back when the last one is followed by `.png`. */
  lemma GroupsOfDigits(z: string, x: string, y: string)
    requires z != [] && x != [] && y != [] && AllDigits(z) && AllDigits(x) && AllDigits(y)
    ensures Groups(GroupsText(z, x, y)) == Some(TileIndex(DigitsValue(z), DigitsValue(x), DigitsValue(y)))
  {
    var r3 := y + ".png";
    var r2 := x + "\\" + r3;
    assert z + "\\" + x + "\\" + y + ".png" == z + "\\" + r2;
    FieldOfDigits(z, r2);
    FieldOfDigits(x, r3);
    LastFieldOfDigits(y);
  }

  /** Round trip: the coordinates of a tile stored by the handler are read back exactly
      from its normalised path. */
  lemma TilePathRoundTrip(zoom: nat, x: nat, y: nat)
    ensures ZoomXY(Normalize(TilePath(zoom, x, y))) == Some(TileIndex(zoom, x, y))
  {
    NormalizedTilePath(zoom, x, y);
    var Z, X, Y := IntToString(zoom), IntToString(x), IntToString(y);
    StoredPathMatches(Z, X, Y);
  }

  lemma StoredPathMatches(z: string, x: string, y: string)
    requires z != [] && x != [] && y != [] && AllDigits(z) && AllDigits(x) && AllDigits(y)
    ensures Search(Drive + (Anchor + GroupsText(z, x, y)))
            == Some(TileIndex(DigitsValue(z), DigitsValue(x), DigitsValue(y)))
  {
    var groups := GroupsText(z, x, y);
    SearchAfterDrive(Anchor + groups);
    MatchAfterAnchor(groups);
    GroupsOfDigits(z, x, y);
  }

  /** The unescaped `.`: a y numeral that runs straight into `png` still matches, with
      the y group giving up its last digit to the `.`; so `...\7\3\45png` reads as
      tile (7, 3, 4). */
  lemma DotTakesLastDigit(y: nat, d: nat)
    requires d < 10
    ensures LastField(NatToString(y) + [DigitChar(d)] + "png") == Some(y)
  {
    var Y := NatToString(y);
    var Yd := Y + [DigitChar(d)];
    var r := Yd + "png";
    DigitPrefixAll(Yd, "png");
    assert !PngAt(r, |Yd|);
    assert r[|Y|] == DigitChar(d) && r[|Y| + 1..|Y| + 4] == "png";
    assert Yd[..|Yd| - 1] == Y;
  }

  /** A path without the anchor, for instance one normalised with forward slashes
      left in, gives no match, which `get_zoom_x_y_from_tile_path` turns into an error. */
  lemma {:induction false} NoAnchorNoMatch(s: string)
    requires forall i :: 0 <= i <= |s| ==> !(Anchor <= s[i..])
    ensures ZoomXY(s) == None
    decreases |s|
  {
    assert s[0..] == s;
    if s != [] {
      forall i | 0 <= i <= |s[1..]| ensures !(Anchor <= s[1..][i..]) {
        assert s[1..][i..] == s[i + 1..];
      }
      NoAnchorNoMatch(s[1..]);
    }
  }
}
