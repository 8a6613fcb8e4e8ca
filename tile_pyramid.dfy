/** The index arithmetic of the tile pipeline. The 31102×31102 distance image is cut
    into 256×256 native tiles at zoom 7, each lower zoom level is built from four tiles
    of the level above it (`sizes_map` gives the pixel width a tile covers at each
    level), zooms 8 and 9 split a tile into four children, and a one-off renaming turned
    the pixel-named tiles into Leaflet's tile indices. Image resampling, pasting, file
    reads and writes are not part of this model: an image is represented by where it
    comes from, and the pixel data of the distance image by a sequence in row-major
    order. */
module TilePyramid {
  import opened Wrappers
  import opened Text
  import opened TilePaths
  import PixelCoords

  const TileSize: int := 256
  const NativeZoom: int := 7

  /** The pixel value of a blank (white) tile and of the padding and cover. */
  const White: int := 255

  /** `sizes_map`: the width in source pixels that one tile covers at each zoom level. */
  const SizesMap: map<int, int> := map[0 := 32768, 1 := 16384, 2 := 8192, 3 := 4096,
                                       4 := 2048, 5 := 1024, 6 := 512, 7 := 256]

  function Pow2(n: nat): (p: nat)
    ensures p >= 1
  {
    if n == 0 then 1 else 2 * Pow2(n - 1)
  }

  /** The levels of `sizes_map`: zooms 0 to 7, a tile at zoom z covering 256·2^(7−z)
      pixels, twice what a tile of the next level covers. */
  lemma SizesMapLevels()
    ensures forall z :: z in SizesMap <==> 0 <= z <= 7
    ensures forall z :: 0 <= z <= 7 ==> SizesMap[z] == TileSize * Pow2(7 - z)
    ensures forall z :: 0 <= z < 7 ==> SizesMap[z] == 2 * SizesMap[z + 1]
  {
    assert Pow2(7) == 128 && Pow2(6) == 64 && Pow2(5) == 32 && Pow2(4) == 16;
    assert Pow2(3) == 8 && Pow2(2) == 4 && Pow2(1) == 2 && Pow2(0) == 1;
  }

  // ---------------------------------------------------------------------------
  // Building a lower level: four source tiles per tile

  /** `coords` of `get_source_images_for_this_tile`: the pixel starts of the four tiles
      of the next level that a tile at `(px, py)` is built from, in the order left-top,
      right-top, left-bottom, right-bottom; `None` when `zoom + 1` is not a key of
      `sizes_map` (a `KeyError`). */
  function SourceCoords(zoom: int, px: int, py: int): (r: Option<seq<(int, int)>>)
    ensures r.Some? <==> zoom + 1 in SizesMap
    ensures r.Some? ==> |r.value| == 4 && forall i :: 0 <= i < 4 ==>
              r.value[i] == (px + (i % 2) * SizesMap[zoom + 1], py + (i / 2) * SizesMap[zoom + 1])
  {
    if zoom + 1 !in SizesMap then None
    else
      var s := SizesMap[zoom + 1];
      Some([(px, py), (px + s, py), (px, py + s), (px + s, py + s)])
  }

  /** The square of pixels a tile starting at `c` covers, `s` wide. */
  predicate InSquare(c: (int, int), s: int, u: int, v: int) {
    c.0 <= u < c.0 + s && c.1 <= v < c.1 + s
  }

  /** The four sources tile their parent: every pixel of the parent's square lies in
      exactly one source square, the one of its quadrant. */
  lemma SourcesTileParent(zoom: int, px: int, py: int, u: int, v: int)
    requires 0 <= zoom < 7
    requires InSquare((px, py), SizesMap[zoom], u, v)
    ensures var cs := SourceCoords(zoom, px, py).value;
            var s := SizesMap[zoom + 1];
            var q := (if u - px < s then 0 else 1) + 2 * (if v - py < s then 0 else 1);
            forall i :: 0 <= i < 4 ==> (InSquare(cs[i], s, u, v) <==> i == q)
  {
    SizesMapLevels();
    var s := SizesMap[zoom + 1];
    assert SizesMap[zoom] == 2 * s && s > 0;
    QuadrantSquares(px, py, s, u, v);
  }

  /** A square 2s wide splits into four squares s wide, and a point of it lies in
      exactly the one of its quadrant. */
  lemma QuadrantSquares(px: int, py: int, s: int, u: int, v: int)
    requires s > 0 && InSquare((px, py), 2 * s, u, v)
    ensures var q := (if u - px < s then 0 else 1) + 2 * (if v - py < s then 0 else 1);
            forall i :: 0 <= i < 4 ==>
              (InSquare((px + (i % 2) * s, py + (i / 2) * s), s, u, v) <==> i == q)
  {
    forall i | 0 <= i < 4
      ensures InSquare((px + (i % 2) * s, py + (i / 2) * s), s, u, v)
              <==> i == (if u - px < s then 0 else 1) + 2 * (if v - py < s then 0 else 1)
    {
      assert i == 0 || i == 1 || i == 2 || i == 3;
    }
  }

  /** The source tile a tile is built from, as the source code opens it: the stored
      image, or a blank 256×256 image of value 255 when no file exists at the path. */
  datatype Image = Blank | Opened(path: string)

  function ImageAt(path: string, onDisk: set<string>): Image {
    if path in onDisk then Opened(path) else Blank
  }

  /** `image_paths` of `get_source_images_for_this_tile`. */
  function SourcePaths(zoom: int, px: int, py: int): (ps: Option<seq<string>>)
    ensures ps.Some? <==> zoom + 1 in SizesMap
    ensures ps.Some? ==> |ps.value| == 4 && forall i :: 0 <= i < 4 ==>
              ps.value[i] == TilePath(zoom + 1, SourceCoords(zoom, px, py).value[i].0,
                                      SourceCoords(zoom, px, py).value[i].1)
  {
    match SourceCoords(zoom, px, py)
    case None => None
    case Some(cs) => Some(seq(4, i requires 0 <= i < 4 => TilePath(zoom + 1, cs[i].0, cs[i].1)))
  }

  /** `get_source_images_for_this_tile`: exactly four images, each the stored source
      tile when its file exists and a blank tile otherwise. `onDisk` is the set of paths
      `os.path.exists` finds. */
  method SourceImages(zoom: int, px: int, py: int, onDisk: set<string>) returns (images: Option<seq<Image>>)
    ensures images.Some? <==> zoom + 1 in SizesMap
    ensures images.Some? ==> |images.value| == 4 && forall i :: 0 <= i < 4 ==>
              images.value[i] == ImageAt(SourcePaths(zoom, px, py).value[i], onDisk)
  {
    var paths := SourcePaths(zoom, px, py);
    if paths.None? {
      return None;
    }
    var found := OpenEach(paths.value, onDisk);
    images := Some(found);
  }

  /** The loop over `image_paths`: one image per path, in order. */
  method OpenEach(imagePaths: seq<string>, onDisk: set<string>) returns (images: seq<Image>)
    ensures |images| == |imagePaths|
    ensures forall j :: 0 <= j < |imagePaths| ==> images[j] == ImageAt(imagePaths[j], onDisk)
  {
    images := [];
    var k := 0;
    while k < |imagePaths|
      invariant 0 <= k <= |imagePaths| && |images| == k
      invariant forall j :: 0 <= j < k ==> images[j] == ImageAt(imagePaths[j], onDisk)
    {
      var img := if imagePaths[k] in onDisk then Opened(imagePaths[k]) else Blank;
      images := images + [img];
      k := k + 1;
    }
  }

  // ---------------------------------------------------------------------------
  // Leaflet tile indices

  /** The floor division `// sizes_map[zoom]` of `copy_rename_tiles`, turning a tile's
      pixel start into its Leaflet index; `None` for a zoom that is not a key. Python's
      `//` floors, which for the positive sizes is Dafny's division. */
  function LeafletIndex(zoom: int, px: int, py: int): (r: Option<(int, int)>)
    ensures r.Some? <==> zoom in SizesMap
    ensures r.Some? ==> var s := SizesMap[zoom];
              && s * r.value.0 <= px < s * (r.value.0 + 1)
              && s * r.value.1 <= py < s * (r.value.1 + 1)
  {
    if zoom !in SizesMap then None
    else
      var s := SizesMap[zoom];
      Some((px / s, py / s))
  }

  /** The four children of a tile in `create_upsized_images_for_this_tile`, one zoom
      level up, in the order left-top, right-top, left-bottom, right-bottom. */
  function Children(t: TileIndex): (cs: seq<TileIndex>)
    ensures |cs| == 4
  {
    [TileIndex(t.zoom + 1, 2 * t.x, 2 * t.y), TileIndex(t.zoom + 1, 2 * t.x + 1, 2 * t.y),
     TileIndex(t.zoom + 1, 2 * t.x, 2 * t.y + 1), TileIndex(t.zoom + 1, 2 * t.x + 1, 2 * t.y + 1)]
  }

  /** Child i sits in quadrant i of its parent (column i % 2, row i / 2), and halving
      its indices gives back the parent; so the four children are distinct. */
  lemma ChildrenOfTile(t: TileIndex, i: int)
    requires 0 <= i < 4
    ensures var c := Children(t)[i];
            && c.zoom == t.zoom + 1
            && c.x / 2 == t.x && c.y / 2 == t.y
            && c.x % 2 == i % 2 && c.y % 2 == i / 2
    ensures forall j :: 0 <= j < 4 && j != i ==> Children(t)[j] != Children(t)[i]
  {
  }

  /** The output paths of `create_upsized_images_for_this_tile`. */
  function ChildPaths(t: TileIndex): (ps: seq<string>)
    ensures |ps| == 4
  {
    seq(4, i requires 0 <= i < 4 => TilePath(Children(t)[i].zoom, Children(t)[i].x, Children(t)[i].y))
  }

  /** Each child is written where its own coordinates are read back, so the four
      children go to four different files. */
  lemma ChildPathsReadBack(t: TileIndex, i: int)
    requires t.zoom >= 0 && t.x >= 0 && t.y >= 0 && 0 <= i < 4
    ensures ZoomXY(Normalize(ChildPaths(t)[i])) == Some(Children(t)[i])
    ensures forall j :: 0 <= j < 4 && j != i ==> ChildPaths(t)[j] != ChildPaths(t)[i]
  {
    ChildReadBack(t, i);
    forall j | 0 <= j < 4 && j != i ensures ChildPaths(t)[j] != ChildPaths(t)[i] {
      ChildReadBack(t, j);
      ChildrenOfTile(t, i);
    }
  }

  lemma ChildReadBack(t: TileIndex, i: int)
    requires t.zoom >= 0 && t.x >= 0 && t.y >= 0 && 0 <= i < 4
    ensures ZoomXY(Normalize(ChildPaths(t)[i])) == Some(Children(t)[i])
  {
    var c := Children(t)[i];
    assert c.zoom >= 0 && c.x >= 0 && c.y >= 0;
    assert ChildPaths(t)[i] == TilePath(c.zoom, c.x, c.y);
    TilePathRoundTrip(c.zoom, c.x, c.y);
  }

  /** A tile built from four sources and the four children of the matching Leaflet tile
      agree: at a pixel start that is a multiple of the level's width, source i sits at
      the Leaflet index of child i. */
  lemma SourcesAreChildren(zoom: int, ix: int, iy: int, i: int)
    requires 0 <= zoom < 7 && 0 <= i < 4
    ensures var s := SizesMap[zoom];
            var c := SourceCoords(zoom, ix * s, iy * s).value[i];
            var child := Children(TileIndex(zoom, ix, iy))[i];
            LeafletIndex(zoom + 1, c.0, c.1) == Some((child.x, child.y))
  {
    SizesMapLevels();
    var s := SizesMap[zoom];
    var h := SizesMap[zoom + 1];
    assert s == 2 * h;
    var c := SourceCoords(zoom, ix * s, iy * s).value[i];
    var child := Children(TileIndex(zoom, ix, iy))[i];
    assert c.0 == (2 * ix + i % 2) * h by {
      assert c.0 == ix * s + (i % 2) * h;
    }
    assert c.1 == (2 * iy + i / 2) * h by {
      assert c.1 == iy * s + (i / 2) * h;
    }
    DivideMultiple(2 * ix + i % 2, h);
    DivideMultiple(2 * iy + i / 2, h);
  }

  lemma DivideMultiple(k: int, s: int)
    requires s > 0
    ensures (k * s) / s == k
  {
    var q, r := (k * s) / s, (k * s) % s;
    assert k * s == q * s + r && 0 <= r < s;
    assert (k - q) * s == r;
    if k - q >= 1 {
      MultiplyMonotone(1, k - q, s);
    } else if k - q <= -1 {
      MultiplyMonotone(k - q, -1, s);
    }
  }

  lemma MultiplyMonotone(a: int, b: int, s: int)
    requires a <= b && s >= 0
    ensures a * s <= b * s
  {
    assert b * s - a * s == (b - a) * s;
  }

  // ---------------------------------------------------------------------------
  // Renaming the pixel-named tiles

  /** The number of tiles `copy_rename_tiles` asserts it finds. */
  const OriginalCount: int := 19907

  const LeafletRoot: string := "C:\\repos\\KJV_Search_Tools\\static\\tiles_leaflet\\"

  /** The new path of `copy_rename_tiles`, all separators backslashes. */
  function LeafletPath(zoom: int, x: int, y: int): string {
    LeafletRoot + IntToString(zoom) + "\\" + IntToString(x) + "\\" + IntToString(y) + ".png"
  }

  /** One old path renamed: its zoom, x and y read by the tile pattern, x and y turned
      into Leaflet indices; `None` where the pattern finds nothing or the zoom is not a
      key of `sizes_map`, both of which raise. */
  function Renamed(oldPath: string): Option<string> {
    match ZoomXY(oldPath)
    case None => None
    case Some(t) =>
      match LeafletIndex(t.zoom, t.x, t.y)
      case None => None
      case Some(ix) => Some(LeafletPath(t.zoom, ix.0, ix.1))
  }

  /** `copy_rename_tiles` after globbing: the count assertion, then the loop building
      `new_files`; `None` when the assertion or any renaming raises. The copying itself
      is file I/O. */
  method RenameTiles(originalFiles: seq<string>) returns (newFiles: Option<seq<string>>)
    ensures newFiles.Some? <==> |originalFiles| == OriginalCount
                                && forall i :: 0 <= i < |originalFiles| ==> Renamed(originalFiles[i]).Some?
    ensures newFiles.Some? ==> (|newFiles.value| == |originalFiles|
              && forall i :: 0 <= i < |originalFiles| ==> Some(newFiles.value[i]) == Renamed(originalFiles[i]))
  {
    if |originalFiles| != OriginalCount {
      return None;
    }
    newFiles := RenameEach(originalFiles, Renamed);
  }

  /** The loop over the files: each is renamed in turn and appended, and the first
      file that cannot be renamed raises. */
  method RenameEach(files: seq<string>, rename: string -> Option<string>) returns (out: Option<seq<string>>)
    ensures out.Some? <==> forall i :: 0 <= i < |files| ==> rename(files[i]).Some?
    ensures out.Some? ==> (|out.value| == |files|
              && forall i :: 0 <= i < |files| ==> Some(out.value[i]) == rename(files[i]))
  {
    var newFiles: seq<string> := [];
    var k := 0;
    while k < |files|
      invariant 0 <= k <= |files| && |newFiles| == k
      invariant forall i :: 0 <= i < k ==> rename(files[i]).Some? && Some(newFiles[i]) == rename(files[i])
    {
      var renamed := rename(files[k]);
      if renamed.None? {
        return None;
      }
      newFiles := newFiles + [renamed.value];
      k := k + 1;
    }
    out := Some(newFiles);
  }

  /** A pixel-named tile stored by the handler at zoom 0..7 is renamed to the Leaflet
      path of its tile index. */
  lemma RenamedPixelTile(zoom: int, ix: nat, iy: nat)
    requires 0 <= zoom <= 7
    ensures var s := SizesMap[zoom];
            Renamed(Normalize(TilePath(zoom, ix * s, iy * s))) == Some(LeafletPath(zoom, ix, iy))
  {
    var s := SizesMap[zoom];
    SizesMapLevels();
    TilePathRoundTrip(zoom, ix * s, iy * s);
    DivideMultiple(ix, s);
    DivideMultiple(iy, s);
  }

  // ---------------------------------------------------------------------------
  // The native tiles at zoom 7

  /** `range(0, 31102, step)`: the pixel starts of the tiles of one level, along one axis. */
  function Starts(step: int): (r: seq<int>)
    requires step > 0
  {
    seq((PixelCoords.ImageSize + step - 1) / step, i => i * step)
  }

  /** The native level has 122 tiles per axis, the last starting at pixel 30976. */
  lemma NativeStarts()
    ensures |Starts(TileSize)| == 122 && Starts(TileSize)[121] == 30976
  {
  }

  /** The starts of a level cover the image: every pixel lies in exactly one tile, the
      one at index `p / step`. */
  lemma StartsCover(step: int, p: int)
    requires step > 0 && 0 <= p < PixelCoords.ImageSize
    ensures var r := Starts(step);
            && p / step < |r|
            && forall i :: 0 <= i < |r| ==> (r[i] <= p < r[i] + step <==> i == p / step)
  {
    var r := Starts(step);
    var q := p / step;
    assert p == q * step + p % step;
    TileOfPixelExists(step, p);
    forall i | 0 <= i < |r| ensures r[i] <= p < r[i] + step <==> i == q {
      assert r[i] == i * step;
      if i < q {
        MultiplyMonotone(i + 1, q, step);
        assert (i + 1) * step == i * step + step;
      } else if i > q {
        MultiplyMonotone(q + 1, i, step);
        assert (q + 1) * step == q * step + step;
      }
    }
  }

  lemma TileOfPixelExists(step: int, p: int)
    requires step > 0 && 0 <= p < PixelCoords.ImageSize
    ensures p / step < |Starts(step)|
  {
    var m := PixelCoords.ImageSize + step - 1;
    var n := m / step;
    assert m == n * step + m % step;
    var q := p / step;
    assert p == q * step + p % step;
    assert (q + 1) * step == q * step + step;
    assert (n + 1) * step == n * step + step;
    if q >= n {
      MultiplyMonotone(n + 1, q + 1, step);
    }
  }

  /** Every start of a level lies inside the image. */
  lemma StartsInside(step: int)
    requires step > 0
    ensures forall i :: 0 <= i < |Starts(step)| ==> 0 <= Starts(step)[i] < PixelCoords.ImageSize
  {
    var r := Starts(step);
    var m := PixelCoords.ImageSize + step - 1;
    var n := m / step;
    assert m == n * step + m % step;
    forall i | 0 <= i < |r| ensures 0 <= r[i] < PixelCoords.ImageSize {
      assert r[i] == i * step;
      MultiplyMonotone(0, i, step);
      MultiplyMonotone(i, n - 1, step);
      assert (n - 1) * step == n * step - step;
    }
  }

  /** Pixel `(x, y)` of the distance image sits at `x + y·31102` in its row-major data
      (the `slice(x + y * 31102, 1)` of `pixel_info`), and that position gives the pixel
      back, so no two pixels share it. */
  function FlatIndex(x: int, y: int): int {
    x + y * PixelCoords.ImageSize
  }

  lemma FlatIndexInverse(x: int, y: int)
    requires 0 <= x < PixelCoords.ImageSize
    ensures FlatIndex(x, y) / PixelCoords.ImageSize == y && FlatIndex(x, y) % PixelCoords.ImageSize == x
  {
  }

  /** `df.slice(offset, 256)` padded by `generate_256px_image_direct` with 255 up to 256
      values when the data ends early. */
  function RowSlice(data: seq<int>, offset: int): (row: seq<int>)
    requires offset >= 0
    ensures |row| == TileSize
    ensures forall c :: 0 <= c < TileSize ==>
              row[c] == if offset + c < |data| then data[offset + c] else White
  {
    var taken := if offset >= |data| then [] else data[offset..Min(offset + TileSize, |data|)];
    taken + seq(TileSize - |taken|, _ => White)
  }

  /** The white cover pasted over the last `d` columns of a tile. */
  function CoverRow(row: seq<int>, d: int): (r: seq<int>)
    requires |row| == TileSize
    ensures |r| == TileSize
    ensures forall c :: 0 <= c < TileSize ==> r[c] == if c >= TileSize - d then White else row[c]
  {
    seq(TileSize, c requires 0 <= c < TileSize => if c >= TileSize - d then White else row[c])
  }

  /** What `generate_256px_image_direct` puts at row `i`, column `c` of the tile at
      `(sx, sy)`: row i is the slice starting at `sx + sy·31102 + i·31102`, padded when
      the data ends, and the columns past the image's right edge are covered white. */
  function TilePixel(data: seq<int>, sx: int, sy: int, i: int, c: int): int
    requires sx >= 0 && sy >= 0 && i >= 0 && c >= 0
  {
    var offset := sx + sy * PixelCoords.ImageSize + i * PixelCoords.ImageSize;
    if sx + TileSize > PixelCoords.ImageSize && c >= TileSize - (sx + TileSize - PixelCoords.ImageSize) then White
    else if offset + c < |data| then data[offset + c]
    else White
  }

  /** `generate_256px_image_direct` on the data of the distance image: 256 row slices,
      then the cover when the tile reaches past the right edge. */
  method GenerateNativeTile(data: seq<int>, sx: int, sy: int) returns (rows: seq<seq<int>>)
    requires sx >= 0 && sy >= 0
    ensures |rows| == TileSize
    ensures forall i :: 0 <= i < TileSize ==> |rows[i]| == TileSize
    ensures forall i, c :: 0 <= i < TileSize && 0 <= c < TileSize ==> rows[i][c] == TilePixel(data, sx, sy, i, c)
  {
    rows := [];
    var i := 0;
    while i < TileSize
      invariant 0 <= i <= TileSize && |rows| == i
      invariant forall r :: 0 <= r < i ==>
                  rows[r] == RowSlice(data, sx + sy * PixelCoords.ImageSize + r * PixelCoords.ImageSize)
    {
      rows := rows + [RowSlice(data, sx + sy * PixelCoords.ImageSize + i * PixelCoords.ImageSize)];
      i := i + 1;
    }
    if sx + TileSize > PixelCoords.ImageSize {
      var difference := sx + TileSize - PixelCoords.ImageSize;
      var sliced := rows;
      rows := seq(TileSize, r requires 0 <= r < TileSize => CoverRow(sliced[r], difference));
    }
  }

  /** The value of pixel `(x, y)` of the distance image, and white outside it. */
  function ImageValue(data: seq<int>, x: int, y: int): int
    requires |data| == PixelCoords.ImageSize * PixelCoords.ImageSize
  {
    if 0 <= x < PixelCoords.ImageSize && 0 <= y < PixelCoords.ImageSize then
      FlatIndexBound(x, y);
      data[FlatIndex(x, y)]
    else White
  }

  lemma FlatIndexBound(x: int, y: int)
    requires 0 <= x < PixelCoords.ImageSize && 0 <= y < PixelCoords.ImageSize
    ensures 0 <= FlatIndex(x, y) < PixelCoords.ImageSize * PixelCoords.ImageSize
  {
    var n := PixelCoords.ImageSize;
    assert y * n <= (n - 1) * n;
  }

  /** A native tile shows the image: the pixel at row i, column c of the tile at
      `(sx, sy)` is image pixel `(sx + c, sy + i)`, and white where that lies outside the
      image. Without the cover, the columns past the right edge would show the start of
      the next image row. */
  lemma TileShowsImage(data: seq<int>, sx: int, sy: int, i: int, c: int)
    requires |data| == PixelCoords.ImageSize * PixelCoords.ImageSize
    requires sx >= 0 && sy >= 0 && 0 <= i < TileSize && 0 <= c < TileSize
    ensures TilePixel(data, sx, sy, i, c) == ImageValue(data, sx + c, sy + i)
  {
    var n := PixelCoords.ImageSize;
    var offset := sx + sy * n + i * n;
    assert offset + c == FlatIndex(sx + c, sy + i);
    if sx + c < n && sy + i >= n {
      assert (sy + i) * n >= n * n;
    }
  }
}
