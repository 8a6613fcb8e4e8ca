/** The similarity endpoint of the backend: clamp the requested count, ask the vector
    store for one neighbour more than that (the nearest is the verse itself), and turn
    every neighbour after the first into a marker row `{distance, xCoord, yCoord}`. The
    vector store's query is not part of this model: its answer, the neighbour ids and
    their distances (already written with two decimals), is an input. */
module Similarity {
  import opened Text
  import opened Wrappers
  import opened Json

  const MaxResults: int := 100

  /** The clamp of `n_results` into [1, 100]. */
  function ClampCount(n: int): (c: int)
    ensures 1 <= c <= MaxResults
    ensures 1 <= n <= MaxResults ==> c == n
    ensures n > MaxResults ==> c == MaxResults
    ensures n < 1 ==> c == 1
  {
    if n > MaxResults then MaxResults else if n < 1 then 1 else n
  }

  /** The number of neighbours asked of the vector store. */
  function Requested(n: int): int {
    ClampCount(n) + 1
  }

  /** One marker row, in the key order of the dictionary literal. */
  function Row(verseId: int, neighbour: int, distance: string): seq<Entry> {
    [("distance", Str(distance)), ("xCoord", Int(verseId)), ("yCoord", Int(neighbour))]
  }

  /** The loop `for i in range(1, len(ids))` appending one row per neighbour. */
  method MarkerRows(verseId: int, ids: seq<int>, distances: seq<string>) returns (rows: seq<seq<Entry>>)
    requires |distances| == |ids|
    ensures |rows| == if |ids| == 0 then 0 else |ids| - 1
    ensures forall i :: 0 <= i < |rows| ==> rows[i] == Row(verseId, ids[i + 1], distances[i + 1])
  {
    rows := [];
    var i := 1;
    while i < |ids|
      invariant 1 <= i <= if |ids| == 0 then 1 else |ids|
      invariant |rows| == i - 1
      invariant forall k :: 0 <= k < |rows| ==> rows[k] == Row(verseId, ids[k + 1], distances[k + 1])
    {
      rows := rows + [Row(verseId, ids[i], distances[i])];
      i := i + 1;
    }
  }

  /** The rows as a value, the specification of `MarkerRows`: the neighbours after the
      first, each with its own distance. */
  function Rows(verseId: int, ids: seq<int>, distances: seq<string>): (rows: seq<seq<Entry>>)
    requires |distances| == |ids|
    ensures |rows| == if |ids| == 0 then 0 else |ids| - 1
    ensures forall i :: 0 <= i < |rows| ==> rows[i] == Row(verseId, ids[i + 1], distances[i + 1])
  {
    if |ids| <= 1 then []
    else [Row(verseId, ids[1], distances[1])] + Rows(verseId, ids[1..], distances[1..])
  }

  /** When the vector store answers at most the neighbours asked for, the endpoint
      returns at most the clamped count of rows, never more than 100. */
  lemma RowCountBound(n: int, verseId: int, ids: seq<int>, distances: seq<string>)
    requires |distances| == |ids| && |ids| <= Requested(n)
    ensures |Rows(verseId, ids, distances)| <= ClampCount(n) <= MaxResults
  {
  }

  /** Every row has the requested verse as `xCoord` and the neighbour as `yCoord`, and
      row i's distance is that of the same neighbour; the first neighbour, the verse
      itself, gets no row. */
  lemma RowsAreNeighbours(verseId: int, ids: seq<int>, distances: seq<string>, i: int)
    requires |distances| == |ids| && 0 <= i < |Rows(verseId, ids, distances)|
    ensures var row := Rows(verseId, ids, distances)[i];
            && Lookup(row, "xCoord") == Some(Int(verseId))
            && Lookup(row, "yCoord") == Some(Int(ids[i + 1]))
            && Lookup(row, "distance") == Some(Str(distances[i + 1]))
            && Keys(row) == ["distance", "xCoord", "yCoord"]
  {
    var row := Rows(verseId, ids, distances)[i];
    assert Keys(row) == [row[0].0, row[1].0, row[2].0];
  }
}
