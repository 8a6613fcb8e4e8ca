/** The click handler of the legacy map script: the clicked point's 0-based pixel is
    sent to the pixel-info endpoint, and the answer is shown as a popup of formatted
    entries; a response that is not ok opens nothing. */
module LegacyClick {
  import opened Wrappers
  import opened Text
  import opened Json
  import opened PixelCoords
  import opened PixelInfo
  import opened Popup

  const UrlPrefix: string := "/api/pixel_info/"

  /** The request URL `/api/pixel_info/{x}/{y}`. */
  function PixelInfoUrl(x: int, y: int): string {
    UrlPrefix + IntToString(x) + "/" + IntToString(y)
  }

  /** What the fetch gives the handler: a decoded body, or a response that is not ok
      (the handler throws, the catch logs it). */
  datatype FetchResult = NotOk | Body(entries: seq<Entry>)

  /** How a server answer reaches the client: an error raised in the handler is a
      non-ok HTTP response. */
  function Served(r: Response): FetchResult {
    match r
    case Dict(entries) => Body(entries)
    case ServerError => NotOk
  }

  /** The popup the handler opens for a fetch result, if any. */
  function ClickPopup(f: FetchResult): (popup: Option<string>)
    ensures popup.Some? <==> f.Body?
    ensures f.Body? ==> popup.value == Join(Lines(f.entries), "<br>")
  {
    match f
    case NotOk => None
    case Body(entries) => Some(Join(Lines(entries), "<br>"))
  }

  /** The URL carries the pixel: after the prefix come exactly two path segments, the
      numerals of x and y, and `parseInt` reads each back. */
  lemma UrlCarriesPixel(x: int, y: int)
    ensures var url := PixelInfoUrl(x, y);
            && UrlPrefix <= url
            && Split(url[|UrlPrefix|..], '/') == [IntToString(x), IntToString(y)]
            && ParseInt(IntToString(x)) == Some(x) && ParseInt(IntToString(y)) == Some(y)
  {
    UrlSegments(x, y);
    ReadBack(x);
    ReadBack(y);
  }

  /** After the prefix, the URL splits into the two numerals. */
  lemma UrlSegments(x: int, y: int)
    ensures UrlPrefix <= PixelInfoUrl(x, y)
    ensures Split(PixelInfoUrl(x, y)[|UrlPrefix|..], '/') == [IntToString(x), IntToString(y)]
  {
    var a, b := IntToString(x), IntToString(y);
    AfterPrefix(UrlPrefix, a + ['/'] + b);
    assert PixelInfoUrl(x, y) == UrlPrefix + (a + ['/'] + b);
    if '/' in a { NumeralChars(x, '/'); }
    if '/' in b { NumeralChars(y, '/'); }
    SplitTwo(a, b, '/');
  }

  /** `parseInt` reads a numeral back. */
  lemma ReadBack(n: int)
    ensures ParseInt(IntToString(n)) == Some(n)
  {
    ParseIntOfNumeral(n, []);
    assert IntToString(n) + [] == IntToString(n);
  }

  lemma AfterPrefix(prefix: string, rest: string)
    ensures prefix <= prefix + rest && (prefix + rest)[|prefix|..] == rest
  {
  }

  lemma CoordinatesKey(key: string)
    requires key == "Coordinates"
    ensures FormatKey(key) == key
  {
    FormatKeyOneWord(key);
  }

  lemma ErrorKey(key: string)
    requires key == "error"
    ensures FormatKey(key) == "Error"
  {
    FormatKeyOneWord(key);
  }

  /** A legacy click against the pixel-info endpoint (with its intended guard) always
      opens a popup. When the 0-based pixel is a row of the verse table the popup starts
      with the 1-based coordinates; otherwise it starts with the error message. */
  lemma ClickPopupAgainstServer(table: seq<Verse>, p: PixelCoords.Point)
    ensures var px := LegacyPixel(p);
            var popup := ClickPopup(Served(GetPixelInfo(table, px.x, px.y)));
            && popup.Some?
            && (Guard(|table|, px.x, px.y) ==>
                  LineText("Coordinates", CoordinatesText(px.x, px.y)) <= popup.value)
            && (!Guard(|table|, px.x, px.y) ==>
                  LineText("Error", "Verse ID out of bounds") <= popup.value)
  {
    var px := LegacyPixel(p);
    if Guard(|table|, px.x, px.y) {
      InBoundsPopup(table, px.x, px.y);
    } else {
      OutOfBoundsPopup(table, px.x, px.y);
    }
  }

  lemma InBoundsPopup(table: seq<Verse>, x: int, y: int)
    requires Guard(|table|, x, y)
    ensures LineText("Coordinates", CoordinatesText(x, y))
            <= Join(Lines(GetPixelInfo(table, x, y).entries), "<br>")
  {
    var d := GetPixelInfo(table, x, y).entries;
    InBoundsAnswer(table, x, y);
    var key := d[0].0;
    CoordinatesKey(key);
    FirstLine(d, key, "Coordinates", CoordinatesText(x, y));
  }

  lemma OutOfBoundsPopup(table: seq<Verse>, x: int, y: int)
    requires !Guard(|table|, x, y)
    ensures LineText("Error", "Verse ID out of bounds")
            <= Join(Lines(GetPixelInfo(table, x, y).entries), "<br>")
  {
    var d := GetPixelInfo(table, x, y).entries;
    OutOfBoundsAnswer(table, x, y);
    var key := d[0].0;
    ErrorKey(key);
    FirstLine(d, key, "Error", "Verse ID out of bounds");
  }

  /** The popup of an object starts with the line of its first entry. */
  lemma FirstLine(d: seq<Entry>, key: string, shown: string, value: string)
    requires |d| >= 1 && d[0] == (key, Str(value)) && FormatKey(key) == shown
    ensures LineText(shown, value) <= Join(Lines(d), "<br>")
  {
    assert Lines(d)[0] == Line(d[0]);
  }

  /** Inside the image the legacy pixel is a row of a table with one verse per pixel
      column, so the popup shows the verse pair. */
  lemma InsideImageIsInBounds(table: seq<Verse>, p: PixelCoords.Point)
    requires |table| == ImageSize
    requires 0.0 <= p.x < ImageSize as real && 0.0 <= p.y < ImageSize as real
    ensures Guard(|table|, LegacyPixel(p).x, LegacyPixel(p).y)
  {
    LegacyAgainstClick(p.x);
    LegacyAgainstClick(p.y);
  }

  /** Against the endpoint as written, a click whose legacy pixel equals the table's
      length (just right of or below the image, when the table has one verse per
      pixel) fails on the server and opens no popup. */
  lemma AsWrittenEdgeClickOpensNothing(table: seq<Verse>, p: PixelCoords.Point)
    requires LegacyPixel(p).x == |table| && 0 <= LegacyPixel(p).y <= |table|
    ensures ClickPopup(Served(GetPixelInfoAsWritten(table, LegacyPixel(p).x, LegacyPixel(p).y))) == None
  {
    GuardAsWrittenAdmitsLength(table, LegacyPixel(p).y);
  }
}
