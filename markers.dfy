/** The similarity-search client: the search request for the selected verse, and the
    marker group that the decoded answer fills. Each row loses its `xCoord` and `yCoord`
    keys, which become the marker's position `unproject([yCoord, xCoord])` (the axes
    swapped, no offset); the remaining keys make the marker's popup. `unproject` is
    Leaflet's and is not part of this model, so a marker records the point handed to
    it. */
module Markers {
  import opened Wrappers
  import opened Text
  import opened Json
  import opened PixelCoords
  import opened Popup
  import opened VerseAddress
  import opened Similarity

  const SearchPrefix := "/api/verse_similarity_search/"

  /** The count the client always asks for. */
  const SearchCount := 50

  /** How `${getVerseNumber()}` writes each outcome into the URL. */
  function VerseText(v: VerseNumber): (t: string)
    requires !v.ReferenceError?
    ensures '/' !in t
  {
    match v
    case Ordinal(n) => NumeralLacks(n, '/'); IntToString(n)
    case Invalid => NumeralLacks(-1, '/'); IntToString(-1)
    case Undefined => "undefined"
    case NotANumber => "NaN"
  }

  /** The search URL, or `None` when `getVerseNumber()` throws before the request is
      made. Nothing checks the number: `-1`, `undefined` and `NaN` are sent as they
      are. */
  function SearchUrl(v: VerseNumber): (url: Option<string>)
    ensures url.Some? <==> !v.ReferenceError?
    ensures url.Some? ==> url.value == SearchPrefix + VerseText(v) + "/" + IntToString(SearchCount)
  {
    if v.ReferenceError? then None
    else Some(SearchPrefix + VerseText(v) + "/" + IntToString(SearchCount))
  }

  /** After the prefix the URL has two segments, the verse as written and the count;
      for a verse ordinal the backend reads back that ordinal and at most 50 rows. */
  lemma SearchUrlSegments(v: VerseNumber)
    requires !v.ReferenceError?
    ensures var url := SearchUrl(v).value;
            && SearchPrefix <= url
            && Split(url[|SearchPrefix|..], '/') == [VerseText(v), IntToString(SearchCount)]
    ensures v.Ordinal? ==> ParseInt(VerseText(v)) == Some(v.n)
    ensures ClampCount(SearchCount) == SearchCount
  {
    var a, b := VerseText(v), IntToString(SearchCount);
    if '/' in b { NumeralChars(SearchCount, '/'); }
    SplitTwo(a, b, '/');
    var url := SearchUrl(v).value;
    assert url == SearchPrefix + (a + ['/'] + b);
    assert url[|SearchPrefix|..] == a + ['/'] + b;
    if v.Ordinal? {
      ParseIntOfNumeral(v.n, []);
      assert a + [] == a;
    }
  }

  /** A marker: the point given to `unproject`, and its popup text. */
  datatype Marker = Marker(at: Pixel, popup: string)

  /** What the fetch gives the second `then`: a non-ok response (thrown, caught and
      logged), or the decoded rows. */
  datatype SearchResponse = NotOk | Rows(rows: seq<seq<Entry>>)

  /** A row whose two coordinates are numbers. A missing coordinate is `undefined`,
      which becomes NaN in `unproject`, and `LatLng` throws on NaN inside the `forEach`,
      which ends it; a string coordinate is taken to end it as well (Leaflet's
      arithmetic would coerce a numeric string, which the backend never sends). */
  predicate Placeable(row: seq<Entry>) {
    Coord(row, "xCoord").Some? && Coord(row, "yCoord").Some?
  }

  /** The number under `key`: `None` when the key is missing or holds a string. */
  function Coord(row: seq<Entry>, key: string): Option<int> {
    if row == [] then None
    else if row[0].0 == key then (if row[0].1.Int? then Some(row[0].1.i) else None)
    else Coord(row[1..], key)
  }

  lemma {:induction false} CoordIsLookup(row: seq<Entry>, key: string)
    ensures Coord(row, key).Some? <==> Lookup(row, key).Some? && Lookup(row, key).value.Int?
    ensures Coord(row, key).Some? ==> Lookup(row, key) == Some(Int(Coord(row, key).value))
  {
    if row != [] && row[0].0 != key {
      CoordIsLookup(row[1..], key);
    }
  }

  /** The row with both coordinates deleted. */
  function PopupEntries(row: seq<Entry>): seq<Entry> {
    Without(row, "xCoord", "yCoord")
  }

  /** The entries of `row` whose key is neither `a` nor `b`, in order. */
  function Without(row: seq<Entry>, a: string, b: string): seq<Entry> {
    if row == [] then []
    else if row[0].0 == a || row[0].0 == b then Without(row[1..], a, b)
    else [row[0]] + Without(row[1..], a, b)
  }

  /** Deleting `a` and then `b` leaves what `Without` keeps. */
  lemma {:induction false} DeleteTwice(row: seq<Entry>, a: string, b: string)
    ensures Delete(Delete(row, a), b) == Without(row, a, b)
  {
    if row != [] {
      DeleteTwice(row[1..], a, b);
    }
  }

  /** The marker of one placeable row. */
  function MarkerOf(row: seq<Entry>): (m: Marker)
    requires Placeable(row)
    ensures m.at == Pixel(Coord(row, "yCoord").value, Coord(row, "xCoord").value)
  {
    Marker(Pixel(Coord(row, "yCoord").value, Coord(row, "xCoord").value),
           Join(Lines(PopupEntries(row)), "<br>"))
  }

  /** How many rows the `forEach` turns into markers: all of them, up to the first
      row that cannot be placed. */
  function PlacedCount(rows: seq<seq<Entry>>): (n: nat)
    ensures n <= |rows|
    ensures forall k :: 0 <= k < n ==> Placeable(rows[k])
    ensures n < |rows| ==> !Placeable(rows[n])
  {
    if rows == [] || !Placeable(rows[0]) then 0 else 1 + PlacedCount(rows[1..])
  }

  /** While the rows before `i` are placeable, the count reaches `i` and continues
      from there. */
  lemma {:induction false} PlacedCountFrom(rows: seq<seq<Entry>>, i: int)
    requires 0 <= i <= |rows|
    requires forall k :: 0 <= k < i ==> Placeable(rows[k])
    ensures PlacedCount(rows) == i + PlacedCount(rows[i..])
  {
    if i > 0 {
      assert rows[1..][i - 1..] == rows[i..];
      PlacedCountFrom(rows[1..], i - 1);
    }
  }

  /** The marker group of the page. */
  class MarkerGroup {
    var markers: seq<Marker>

    constructor()
      ensures markers == []
    {
      markers := [];
    }

    /** The `forEach` over the decoded rows: delete the coordinates, build the popup,
        add the marker, row by row until one cannot be placed. */
    method AddRows(rows: seq<seq<Entry>>)
      modifies this
      ensures |markers| == |old(markers)| + PlacedCount(rows)
      ensures markers[..|old(markers)|] == old(markers)
      ensures forall k :: 0 <= k < PlacedCount(rows) ==> markers[|old(markers)| + k] == MarkerOf(rows[k])
    {
      var i := 0;
      while i < |rows|
        invariant 0 <= i <= |rows|
        invariant forall k :: 0 <= k < i ==> Placeable(rows[k])
        invariant |markers| == |old(markers)| + i
        invariant markers[..|old(markers)|] == old(markers)
        invariant forall k :: 0 <= k < i ==> markers[|old(markers)| + k] == MarkerOf(rows[k])
      {
        var row := rows[i];
        if !Placeable(row) {
          PlacedCountFrom(rows, i);
          return;
        }
        var m := MarkerFor(row);
        markers := markers + [m];
        i := i + 1;
      }
      PlacedCountFrom(rows, i);
    }

    /** The body of the `forEach` for one row: read the coordinates, delete them,
        build the popup from what is left. */
    static method MarkerFor(row: seq<Entry>) returns (m: Marker)
      requires Placeable(row)
      ensures m == MarkerOf(row)
    {
      var xCoord := Coord(row, "xCoord").value;
      var yCoord := Coord(row, "yCoord").value;
      var rest := Delete(row, "xCoord");
      rest := Delete(rest, "yCoord");
      DeleteTwice(row, "xCoord", "yCoord");
      var popup := BuildPopup(rest);
      m := Marker(Pixel(yCoord, xCoord), popup);
    }

    /** The search for the selected verse, once the server's answer is known: a non-ok
        response adds nothing, and otherwise the rows are added after the markers
        already shown. */
    method OnMatches(response: SearchResponse)
      modifies this
      ensures response.NotOk? ==> markers == old(markers)
      ensures response.Rows? ==> |markers| == |old(markers)| + PlacedCount(response.rows)
      ensures markers[..|old(markers)|] == old(markers)
      ensures response.Rows? ==> forall k :: 0 <= k < PlacedCount(response.rows) ==>
                markers[|old(markers)| + k] == MarkerOf(response.rows[k])
    {
      if response.Rows? {
        AddRows(response.rows);
      }
    }

    /** `clearMarkers`: the group is emptied. */
    method Clear()
      modifies this
      ensures markers == []
    {
      markers := [];
    }
  }

  lemma DistanceKey(key: string)
    requires key == "distance"
    ensures FormatKey(key) == "Distance"
  {
    FormatKeyOneWord(key);
  }

  /** The rows of the backend are all placed: marker i stands at the point
      (neighbour id, queried verse), i.e. the id of the neighbour on the x axis of the
      point handed to `unproject`, and its popup has the single line with the
      distance. */
  lemma BackendRowsPlaced(verseId: int, ids: seq<int>, distances: seq<string>)
    requires |distances| == |ids|
    ensures var rows := Similarity.Rows(verseId, ids, distances);
            && PlacedCount(rows) == |rows|
            && forall i :: 0 <= i < |rows| ==>
                 MarkerOf(rows[i]) == Marker(Pixel(ids[i + 1], verseId), LineText("Distance", distances[i + 1]))
  {
    var rows := Similarity.Rows(verseId, ids, distances);
    forall i | 0 <= i < |rows|
      ensures Placeable(rows[i])
      ensures MarkerOf(rows[i]) == Marker(Pixel(ids[i + 1], verseId), LineText("Distance", distances[i + 1]))
    {
      RowMarker(verseId, ids[i + 1], distances[i + 1]);
    }
    PlacedCountFrom(rows, |rows|);
  }

  lemma WithoutCoords(e: Entry, x: int, y: int, a: string, b: string)
    requires e.0 != a && e.0 != b && a != b
    ensures Without([e, (a, Int(x)), (b, Int(y))], a, b) == [e]
    ensures Coord([e, (a, Int(x)), (b, Int(y))], a) == Some(x)
    ensures Coord([e, (a, Int(x)), (b, Int(y))], b) == Some(y)
  {
    var row := [e, (a, Int(x)), (b, Int(y))];
    var r1 := [(a, Int(x)), (b, Int(y))];
    var r2 := [(b, Int(y))];
    assert row[1..] == r1 && r1[1..] == r2 && r2[1..] == [];
    assert Without(r2, a, b) == [];
    assert Without(r1, a, b) == [];
    assert Without(row, a, b) == [e] + Without(r1, a, b);
    assert Coord(row, a) == Coord(r1, a) == Some(x);
    assert Coord(r1, b) == Coord(r2, b) == Some(y);
    assert Coord(row, b) == Coord(r1, b);
  }

  lemma RowMarker(verseId: int, neighbour: int, distance: string)
    ensures Placeable(Row(verseId, neighbour, distance))
    ensures MarkerOf(Row(verseId, neighbour, distance)) == Marker(Pixel(neighbour, verseId), LineText("Distance", distance))
  {
    var row := Row(verseId, neighbour, distance);
    var e: Entry := ("distance", Str(distance));
    assert row == [e] + [("xCoord", Int(verseId)), ("yCoord", Int(neighbour))];
    WithoutCoords(e, verseId, neighbour, "xCoord", "yCoord");
    DistanceKey(e.0);
    assert Lines([e]) == [Line(e)];
  }
}
