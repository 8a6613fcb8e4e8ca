/** The pixel-info endpoint of the legacy server: for a clicked pixel (x, y) it returns
    the verse at row x and the verse at row y of the verse table, or an error dictionary
    when the coordinates are out of bounds. A response dictionary is modelled as its
    entries in insertion order, which is the order Python keeps and JSON carries. */
module PixelInfo {
  import opened Text
  import opened Json

  /** One row of the verse table after `select(["citation", "text"])`. */
  datatype Verse = Verse(citation: string, text: string)

  /** The response when the handler returns a dictionary, or the server error raised by
      `row(i)` on a row index the table does not have. */
  datatype Response = Dict(entries: seq<Entry>) | ServerError

  /** The table's column names after `rename({"citation": "Verse"})`. */
  const Columns: seq<string> := ["Verse", "text"]

  function RowValues(v: Verse): seq<string> {
    [v.citation, v.text]
  }

  /** `{prefix + col: val for col, val in zip(columns, row)}`. */
  function Prefixed(prefix: string, columns: seq<string>, row: seq<string>): (d: seq<Entry>)
    ensures |d| == Min(|columns|, |row|)
    ensures forall i :: 0 <= i < |d| ==> d[i] == (prefix + columns[i], Str(row[i]))
  {
    if columns == [] || row == [] then []
    else [(prefix + columns[0], Str(row[0]))] + Prefixed(prefix, columns[1..], row[1..])
  }

  function CoordinatesText(x: int, y: int): string {
    IntToString(x + 1) + ", " + IntToString(y + 1)
  }

  function InBoundsResult(table: seq<Verse>, x: int, y: int): seq<Entry>
    requires 0 <= x < |table| && 0 <= y < |table|
  {
    [("Coordinates", Str(CoordinatesText(x, y)))]
    + Prefixed("X ", Columns, RowValues(table[x]))
    + Prefixed("Y ", Columns, RowValues(table[y]))
  }

  function OutOfBoundsResult(x: int, y: int): seq<Entry> {
    [("error", Str("Verse ID out of bounds")), ("verse_x_id", Int(x)), ("verse_y_id", Int(y))]
  }

  /** The guard as written: both coordinates in [0, len], the upper end included. */
  predicate GuardAsWritten(len: int, x: int, y: int) {
    0 <= x <= len && 0 <= y <= len
  }

  /** `get_pixel_info` as written: the guard admits a coordinate equal to the table's
      length, and `row` then raises. */
  function GetPixelInfoAsWritten(table: seq<Verse>, x: int, y: int): Response {
    if GuardAsWritten(|table|, x, y) then
      if x < |table| && y < |table| then Dict(InBoundsResult(table, x, y)) else ServerError
    else Dict(OutOfBoundsResult(x, y))
  }

  /** The guard as evidently intended: both coordinates are row indices of the table. */
  predicate Guard(len: int, x: int, y: int) {
    0 <= x < len && 0 <= y < len
  }

  /** `get_pixel_info` with the intended guard. */
  function GetPixelInfo(table: seq<Verse>, x: int, y: int): (r: Response)
    ensures r.Dict?
  {
    if Guard(|table|, x, y) then Dict(InBoundsResult(table, x, y))
    else Dict(OutOfBoundsResult(x, y))
  }

  /** The guard as written lets one coordinate past the last row through, on every
      table, and the handler then fails instead of answering. */
  lemma GuardAsWrittenAdmitsLength(table: seq<Verse>, y: int)
    requires 0 <= y <= |table|
    ensures GuardAsWritten(|table|, |table|, y) && !Guard(|table|, |table|, y)
    ensures GetPixelInfoAsWritten(table, |table|, y) == ServerError
  {
  }

  /** The two guards differ exactly on the coordinates equal to the length; elsewhere the
      two handlers give the same response. */
  lemma AsWrittenAgreesOffTheEdge(table: seq<Verse>, x: int, y: int)
    ensures GetPixelInfoAsWritten(table, x, y) == ServerError
            <==> GuardAsWritten(|table|, x, y) && (x == |table| || y == |table|)
    ensures GetPixelInfoAsWritten(table, x, y) != ServerError
            ==> GetPixelInfoAsWritten(table, x, y) == GetPixelInfo(table, x, y)
  {
  }

  /** With the intended guard, the admitted coordinates are exactly the row indices, and
      an in-bounds answer carries the coordinates shifted to 1-based, then the X row's
      columns, then the Y row's, under the keys `X Verse`, `X text`, `Y Verse`, `Y text`. */
  lemma InBoundsAnswer(table: seq<Verse>, x: int, y: int)
    requires 0 <= x < |table| && 0 <= y < |table|
    ensures var d := GetPixelInfo(table, x, y).entries;
            && Keys(d) == ["Coordinates", "X Verse", "X text", "Y Verse", "Y text"]
            && d[0].1 == Str(CoordinatesText(x, y))
            && d[1].1 == Str(table[x].citation) && d[2].1 == Str(table[x].text)
            && d[3].1 == Str(table[y].citation) && d[4].1 == Str(table[y].text)
  {
    PrefixedRow("X ", table[x]);
    PrefixedRow("Y ", table[y]);
    assert "X " + "Verse" == "X Verse" && "X " + "text" == "X text";
    assert "Y " + "Verse" == "Y Verse" && "Y " + "text" == "Y text";
  }

  /** The two entries a row contributes, under its prefixed column names. */
  lemma PrefixedRow(prefix: string, v: Verse)
    ensures Prefixed(prefix, Columns, RowValues(v))
            == [(prefix + "Verse", Str(v.citation)), (prefix + "text", Str(v.text))]
  {
    var d := Prefixed(prefix, Columns, RowValues(v));
    assert |d| == 2;
  }

  /** Anything else gets the error dictionary, which echoes both coordinates. */
  lemma OutOfBoundsAnswer(table: seq<Verse>, x: int, y: int)
    requires !(0 <= x < |table| && 0 <= y < |table|)
    ensures var d := GetPixelInfo(table, x, y).entries;
            && Keys(d) == ["error", "verse_x_id", "verse_y_id"]
            && d[0].1 == Str("Verse ID out of bounds") && d[1].1 == Int(x) && d[2].1 == Int(y)
  {
    var d := GetPixelInfo(table, x, y).entries;
    assert Keys(d) == [d[0].0, d[1].0, d[2].0];
  }

  /** The answer's keys are distinct, so the list of entries is a faithful dictionary. */
  lemma ResponseKeysDistinct(table: seq<Verse>, x: int, y: int)
    ensures var ks := Keys(GetPixelInfo(table, x, y).entries);
            forall i, j :: 0 <= i < j < |ks| ==> ks[i] != ks[j]
  {
    if Guard(|table|, x, y) {
      InBoundsAnswer(table, x, y);
    } else {
      OutOfBoundsAnswer(table, x, y);
    }
  }
}
