/** The click handler of the newer map module: the clicked point becomes a 1-based
    pixel (x, y); the verse with id x is looked up and awaited, then the verse with id
    y, and a popup shows both. A rejected lookup, or a lookup that finds no record,
    ends the handler without a popup. */
module MapClick {
  import opened Wrappers
  import opened Text
  import opened PixelCoords
  import opened DataWorker
  import opened VerseClient

  /** What the handler has done once the outcomes of its lookups are known: the ids it
      asked for, in order, and the popup it opened, if any. */
  datatype ClickResult = ClickResult(lookups: seq<int>, popup: Option<string>)

  /** The popup template: coordinates are the two verse ids, then the X citation and
      text, then the Y citation and text; each line break of the template literal keeps
      the four spaces of indentation that follow it. */
  function PopupContent(x: Record, y: Record): (c: string)
    ensures CoordinatesLine(x.verseId, y.verseId) <= c
    ensures |y.text| <= |c| && c[|c| - |y.text|..] == y.text
  {
    var head, lines := CoordinatesLine(x.verseId, y.verseId), RecordLines(x, y);
    Around(head, lines);
    EndsWith(head, lines, y.text);
    head + lines
  }

  /** The first line of the popup: the two verse ids. */
  function CoordinatesLine(xId: int, yId: int): string {
    "<b>Coordinates:</b> " + IntToString(xId) + ", " + IntToString(yId) + "<br>\n"
  }

  /** The other four lines: the X citation and text, then the Y citation and text. */
  function RecordLines(x: Record, y: Record): (c: string)
    ensures |y.text| <= |c| && c[|c| - |y.text|..] == y.text
  {
    var front := "    <b>X Citation:</b> " + x.citation + "<br>\n"
                 + "    <b>X Text:</b> " + x.text + "<br>\n"
                 + "    <b>Y Citation:</b> " + y.citation + "<br>\n"
                 + "    <b>Y Text:</b> ";
    Around(front, y.text);
    front + y.text
  }

  /** A concatenation starts with its first part and ends with its second. */
  lemma Around(a: string, b: string)
    ensures a <= a + b && (a + b)[|a + b| - |b|..] == b
  {
  }

  /** A string that ends with `t` still does once something is put in front of it. */
  lemma EndsWith(a: string, b: string, t: string)
    requires |t| <= |b| && b[|b| - |t|..] == t
    ensures |t| <= |a + b| && (a + b)[|a + b| - |t|..] == t
  {
    assert (a + b)[|a + b| - |t|..] == b[|b| - |t|..];
  }

  /** The handler for the clicked point `p`, given how the x lookup settled and how the
      y lookup settles (`yOutcome` is not consulted when the y lookup is never made).
      The y lookup starts only after the x promise has resolved; a rejection throws out
      of the handler, and a missing record throws when its fields are read. */
  function OnClick(p: PixelCoords.Point, xOutcome: Settlement, yOutcome: Settlement): (r: ClickResult)
    requires !xOutcome.Pending? && !yOutcome.Pending?
    ensures |r.lookups| >= 1 && r.lookups[0] == ClickAxis(p.x)
    ensures |r.lookups| == 2 <==> xOutcome.Resolved?
    ensures |r.lookups| == 2 ==> r.lookups[1] == ClickAxis(p.y)
    ensures r.popup.Some? <==> xOutcome.Resolved? && xOutcome.result.Some?
                               && yOutcome.Resolved? && yOutcome.result.Some?
    ensures r.popup.Some? ==> r.popup.value == PopupContent(xOutcome.result.value, yOutcome.result.value)
  {
    var px := ClickPixel(p);
    if xOutcome.Rejected? then ClickResult([px.x], None)
    else if yOutcome.Rejected? || xOutcome.result.None? || yOutcome.result.None? then
      ClickResult([px.x, px.y], None)
    else ClickResult([px.x, px.y], Some(PopupContent(xOutcome.result.value, yOutcome.result.value)))
  }

  /** The ids looked up are the clamped pixel coordinates, both in [1, 31102], so the
      popup, when there is one, is for verses of the image's range. */
  lemma LookupsInRange(p: PixelCoords.Point, xOutcome: Settlement, yOutcome: Settlement)
    requires !xOutcome.Pending? && !yOutcome.Pending?
    ensures forall i :: 0 <= i < |OnClick(p, xOutcome, yOutcome).lookups| ==>
              1 <= OnClick(p, xOutcome, yOutcome).lookups[i] <= ImageSize
  {
  }

  /** When the store keeps every record under its own id (as the verse cache does), the
      popup's first line shows the clicked pixel: the x and y ids that were looked up. */
  lemma PopupShowsPixel(p: PixelCoords.Point, xr: Record, yr: Record)
    requires xr.verseId == ClickAxis(p.x) && yr.verseId == ClickAxis(p.y)
    ensures var r := OnClick(p, Resolved(Some(xr)), Resolved(Some(yr)));
            && r.lookups == [ClickAxis(p.x), ClickAxis(p.y)]
            && r.popup.Some?
            && CoordinatesLine(ClickAxis(p.x), ClickAxis(p.y)) <= r.popup.value
  {
  }

  /** With the intended timer, the handler's two lookups go through the one resolver
      slot in turn: after the x lookup resolved, the y lookup takes the slot, x's timer
      firing leaves it there, and y's reply resolves y. */
  lemma SequentialLookupsSettle(s: State, x: int, y: int, rx: Option<Record>, ry: Option<Record>)
    requires Live(s) && s.hasWorker
    ensures var k := |s.calls|;
            var s1 := Deliver(Request(s, x), QueryResult(rx));
            var s2 := Request(s1, y);
            var s3 := Timeout(s2, k);
            var s4 := Deliver(s3, QueryResult(ry));
            && s1.calls[k] == Call(x, Resolved(rx))
            && s3.slot == Some(k + 1)
            && s4.calls[k + 1] == Call(y, Resolved(ry))
  {
    var k := |s.calls|;
    var s1 := Deliver(Request(s, x), QueryResult(rx));
    var s2 := Request(s1, y);
    assert k in s2.armed;
  }
}
