/** The Python prototype's `World` (py/main.py): the colour-index grid, its
    palette and the half-open world-space bounds test. */
module PyWorld {

  type byte = x: int | 0 <= x < 256

  /** A pygame colour: red, green, blue and alpha channels. */
  datatype Rgba = Rgba(r: byte, g: byte, b: byte, a: byte)

  /** `pg.Color(0, 0, 0, 0)`, palette entry 0 of a loaded map. */
  const Invisible: Rgba := Rgba(0, 0, 0, 0)

  /** World units per grid cell (`block_size`). */
  const BlockSize: int := 80

  /** The debug map: a border of colour 1 around an empty interior with a
      single block of colour 2 in the centre. */
  const DebugMap: seq<seq<int>> := [
    [1, 1, 1, 1, 1],
    [1, 0, 0, 0, 1],
    [1, 0, 2, 0, 1],
    [1, 0, 0, 0, 1],
    [1, 1, 1, 1, 1]
  ]

  const DebugColors: seq<Rgba> := [
    Rgba(0, 0, 0, 255),
    Rgba(30, 30, 30, 255),
    Rgba(20, 200, 20, 255)
  ]

  /** No colour occurs twice in the palette. */
  predicate Distinct(s: seq<Rgba>) {
    forall p, q :: 0 <= p < q < |s| ==> s[p] != s[q]
  }

  /** Python's `list.index`: the position of the first occurrence of `c`. */
  function IndexOf(s: seq<Rgba>, c: Rgba): (k: nat)
    requires c in s
    ensures k < |s| && s[k] == c
    ensures forall p :: 0 <= p < k ==> s[p] != c
  {
    if s[0] == c then 0 else 1 + IndexOf(s[1..], c)
  }

  /** Pixel (i', j') was visited before pixel (i, j) in the column-major scan. */
  predicate Before(i': int, j': int, i: int, j: int) {
    i' < i || (i' == i && j' < j)
  }

  /** Some pixel of the image has colour `c`. */
  ghost predicate InImage(im: array2<Rgba>, c: Rgba)
    reads im
  {
    exists i, j :: 0 <= i < im.Length0 && 0 <= j < im.Length1 && im[i, j] == c
  }

  /** The grid as a list of rows, `grid[i][j] == a[i, j]`. */
  function GridOf(a: array2<int>): (g: seq<seq<int>>)
    reads a
    ensures |g| == a.Length0
    ensures forall i :: 0 <= i < |g| ==> |g[i]| == a.Length1
    ensures forall i, j :: 0 <= i < a.Length0 && 0 <= j < a.Length1 ==> g[i][j] == a[i, j]
  {
    seq(a.Length0, i reads a requires 0 <= i < a.Length0 => seq(a.Length1, j reads a requires 0 <= j < a.Length1 => a[i, j]))
  }

  /** The palette so far: the invisible colour first, no repeats, and every
      later entry taken from the pixel recorded for it in `origin`. */
  ghost predicate PaletteFrom(im: array2<Rgba>, colors: seq<Rgba>, origin: seq<(int, int)>)
    reads im
  {
    && |colors| > 0 && colors[0] == Invisible && Distinct(colors)
    && |origin| == |colors|
    && forall k :: 1 <= k < |colors| ==>
         0 <= origin[k].0 < im.Length0 && 0 <= origin[k].1 < im.Length1 && im[origin[k].0, origin[k].1] == colors[k]
  }

  /** The map after scanning every pixel before (i, j): scanned pixels are in
      the palette and carry their colour's index (0 when transparent); the
      others are still 0. */
  ghost predicate ScannedUpTo(im: array2<Rgba>, gameMap: array2<int>, colors: seq<Rgba>, i: int, j: int)
    reads im, gameMap
    requires im.Length0 == im.Length1 == gameMap.Length0 == gameMap.Length1
  {
    forall i', j' :: 0 <= i' < im.Length0 && 0 <= j' < im.Length1 ==>
      && 0 <= gameMap[i', j'] < |colors|
      && (Before(i', j', i, j) ==> PixelDone(im[i', j'], gameMap[i', j'], colors))
      && (!Before(i', j', i, j) ==> gameMap[i', j'] == 0)
  }

  /** One scanned pixel: its colour is in the palette, and its map entry is 0
      when it is transparent and otherwise a non-zero index of its colour. */
  ghost predicate PixelDone(c: Rgba, entry: int, colors: seq<Rgba>) {
    && c in colors
    && (c.a == 0 ==> entry == 0)
    && (c.a != 0 ==> 1 <= entry < |colors| && colors[entry] == c)
  }

  /** `World.load_map` on the loaded image: `im[i, j]` is the pixel at
      column i, row j. The palette starts with the invisible colour and
      collects every distinct pixel colour in scan order; every pixel that is
      not fully transparent gets the palette index of its colour. */
  method LoadMap(im: array2<Rgba>) returns (gameMap: array2<int>, colors: seq<Rgba>)
    requires im.Length0 == im.Length1
    ensures fresh(gameMap)
    ensures gameMap.Length0 == im.Length1 && gameMap.Length1 == im.Length0
    ensures |colors| > 0 && colors[0] == Invisible && Distinct(colors)
    ensures forall k :: 1 <= k < |colors| ==> InImage(im, colors[k])
    ensures forall i, j :: 0 <= i < gameMap.Length0 && 0 <= j < gameMap.Length1 ==>
              0 <= gameMap[i, j] < |colors|
    ensures forall i, j :: 0 <= i < im.Length0 && 0 <= j < im.Length1 ==> im[i, j] in colors
    ensures forall i, j :: 0 <= i < im.Length0 && 0 <= j < im.Length1 && im[i, j].a == 0 ==>
              gameMap[i, j] == 0
    ensures forall i, j :: 0 <= i < im.Length0 && 0 <= j < im.Length1 && im[i, j].a != 0 ==>
              1 <= gameMap[i, j] && colors[gameMap[i, j]] == im[i, j]
  {
    var n := im.Length0;
    gameMap := new int[n, n]((_, _) => 0);
    colors := [Invisible];
    ghost var origin: seq<(int, int)> := [(0, 0)];
    var i := 0;
    while i < n
      invariant 0 <= i <= n
      invariant PaletteFrom(im, colors, origin)
      invariant ScannedUpTo(im, gameMap, colors, i, 0)
    {
      colors, origin := ScanColumn(im, gameMap, i, colors, origin);
      i := i + 1;
    }
    forall k | 1 <= k < |colors|
      ensures InImage(im, colors[k])
    {
      var (i', j') := origin[k];
      assert 0 <= i' < im.Length0 && 0 <= j' < im.Length1 && im[i', j'] == colors[k];
    }
    forall i', j' | 0 <= i' < n && 0 <= j' < n
      ensures 0 <= gameMap[i', j'] < |colors| && PixelDone(im[i', j'], gameMap[i', j'], colors)
    {
      assert Before(i', j', n, 0);
    }
  }

  /** The inner loop of `load_map`: scans column i of the image. */
  method ScanColumn(im: array2<Rgba>, gameMap: array2<int>, i: int, colors: seq<Rgba>, ghost origin: seq<(int, int)>)
      returns (colors': seq<Rgba>, ghost origin': seq<(int, int)>)
    requires im.Length0 == im.Length1 == gameMap.Length0 == gameMap.Length1
    requires 0 <= i < im.Length0
    requires PaletteFrom(im, colors, origin)
    requires ScannedUpTo(im, gameMap, colors, i, 0)
    modifies gameMap
    ensures PaletteFrom(im, colors', origin')
    ensures ScannedUpTo(im, gameMap, colors', i + 1, 0)
  {
    var n := im.Length1;
    colors', origin' := colors, origin;
    var j := 0;
    while j < n
      invariant 0 <= j <= n
      invariant PaletteFrom(im, colors', origin')
      invariant ScannedUpTo(im, gameMap, colors', i, j)
    {
      var c := im[i, j];
      if c !in colors' {
        colors' := colors' + [c];
        origin' := origin' + [(i, j)];
      }
      if c.a != 0 {
        gameMap[i, j] := IndexOf(colors', c);
      }
      j := j + 1;
    }
    forall i', j' | 0 <= i' < n && 0 <= j' < n
      ensures Before(i', j', i, n) == Before(i', j', i + 1, 0)
    {
    }
  }

  /** `World`: the grid, its palette and the world-space corners. Nothing is
      changed after construction, so every field is a constant. */
  class World {
    const gameMap: seq<seq<int>>
    const colors: seq<Rgba>
    const width: int
    const height: int
    const blockSize: int
    const lowerCorner: (int, int)
    const upperCorner: (int, int)

    /** A non-empty rectangular grid whose entries index the palette. */
    ghost predicate Valid() {
      && |gameMap| > 0
      && width == |gameMap[0]| && height == |gameMap|
      && (forall i :: 0 <= i < |gameMap| ==> |gameMap[i]| == width)
      && (forall i, j :: 0 <= i < |gameMap| && 0 <= j < |gameMap[i]| ==> 0 <= gameMap[i][j] < |colors|)
      && blockSize == BlockSize
      && lowerCorner == (0, 0)
      && upperCorner == (width * blockSize, height * blockSize)
    }

    /** `World(map_path, debug=True)`. */
    constructor Debug()
      ensures Valid()
      ensures gameMap == DebugMap && colors == DebugColors
      ensures width == 5 && height == 5 && upperCorner == (400, 400)
    {
      gameMap := DebugMap;
      colors := DebugColors;
      width, height := |DebugMap[0]|, |DebugMap|;
      blockSize := BlockSize;
      lowerCorner := (0, 0);
      upperCorner := (|DebugMap[0]| * BlockSize, |DebugMap| * BlockSize);
    }

    /** `World(map_path)`, with the image that `pglib.load(map_path)` returns:
        the map and palette are those of `load_map`, with `gameMap[i][j]`
        standing for pixel (i, j). */
    constructor FromImage(im: array2<Rgba>)
      requires im.Length0 == im.Length1 > 0
      ensures Valid()
      ensures width == height == im.Length0
      ensures |colors| > 0 && colors[0] == Invisible && Distinct(colors)
      ensures forall k :: 1 <= k < |colors| ==> InImage(im, colors[k])
      ensures forall i, j :: 0 <= i < im.Length0 && 0 <= j < im.Length1 ==> im[i, j] in colors
      ensures forall i, j :: 0 <= i < im.Length0 && 0 <= j < im.Length1 && im[i, j].a == 0 ==>
                gameMap[i][j] == 0
      ensures forall i, j :: 0 <= i < im.Length0 && 0 <= j < im.Length1 && im[i, j].a != 0 ==>
                1 <= gameMap[i][j] < |colors| && colors[gameMap[i][j]] == im[i, j]
    {
      var a, palette := LoadMap(im);
      var g := GridOf(a);
      gameMap := g;
      colors := palette;
      width, height := |g[0]|, |g|;
      blockSize := BlockSize;
      lowerCorner := (0, 0);
      upperCorner := (|g[0]| * BlockSize, |g| * BlockSize);
    }

    /** `in_boundaries`: inside the box from the lower corner (included) to
        the upper corner (excluded). */
    predicate InBoundaries(x: real, y: real): (b: bool)
      requires Valid()
      ensures b <==> 0.0 <= x < (width * BlockSize) as real && 0.0 <= y < (height * BlockSize) as real
    {
      x >= lowerCorner.0 as real && x < upperCorner.0 as real &&
      y >= lowerCorner.1 as real && y < upperCorner.1 as real
    }

    /** A point is in bounds exactly when the grid cell containing it exists. */
    lemma InBoundariesIffCellInGrid(x: real, y: real)
      requires Valid()
      ensures InBoundaries(x, y) <==>
                0 <= (x / BlockSize as real).Floor < width && 0 <= (y / BlockSize as real).Floor < height
    {
      CellIndexRange(x, width);
      CellIndexRange(y, height);
    }
  }

  /** Loading an image whose pixels are all opaque leaves no empty cell. */
  method OpaqueImageFillsMap(im: array2<Rgba>) returns (w: World)
    requires im.Length0 == im.Length1 > 0
    requires forall i, j :: 0 <= i < im.Length0 && 0 <= j < im.Length1 ==> im[i, j].a != 0
    ensures w.Valid() && w.width == w.height == im.Length0
    ensures forall i, j :: 0 <= i < w.height && 0 <= j < w.width ==> w.gameMap[i][j] != 0
  {
    w := new World.FromImage(im);
  }

  /** One coordinate lies in `[0, n * BlockSize)` exactly when its cell index lies in `[0, n)`. */
  lemma CellIndexRange(v: real, n: int)
    ensures 0.0 <= v < (n * BlockSize) as real <==> 0 <= (v / BlockSize as real).Floor < n
  {
    var k := (v / BlockSize as real).Floor;
    assert k as real <= v / 80.0 < k as real + 1.0;
    assert (k * 80) as real <= v < (k * 80 + 80) as real;
  }
}
