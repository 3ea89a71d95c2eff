/** The C++ port's `World` (cpp/src/world.cpp, cpp/include/world.hpp).

    The constructor's line `WIDTH, HEIGHT = GAME_MAP[0].size(), GAME_MAP.size();`
    is a comma expression: it assigns only `HEIGHT`, and assigns it the length
    of the first row. `WIDTH` keeps whatever indeterminate value it had, so the
    model takes that value as a parameter. */
module CppWorld {
  import opened Numeric

  /** `blockSize`. */
  const BlockSize: int := 80

  /** The debug map of `World::World`: a border of 1s, a 2 in the centre. */
  const DebugMap: seq<seq<int>> := [
    [1, 1, 1, 1, 1],
    [1, 0, 0, 0, 1],
    [1, 0, 2, 0, 1],
    [1, 0, 0, 0, 1],
    [1, 1, 1, 1, 1]
  ]

  /** `World`: the grid and its corners, fixed once constructed. */
  class World {
    const gameMap: seq<seq<int>>
    const width: uint32
    const height: uint32
    const lowerCorner: (uint32, uint32)
    const upperCorner: (uint32, uint32)

    /** `World(mapPath, true)`; `indeterminateWidth` stands for the value
        `WIDTH` holds without ever being assigned. */
    constructor Debug(indeterminateWidth: uint32)
      ensures gameMap == DebugMap
      ensures width == indeterminateWidth && height == |DebugMap[0]| == 5
      ensures lowerCorner == (0, 0)
      ensures upperCorner == (ToUint32(indeterminateWidth * BlockSize), 400)
    {
      gameMap := DebugMap;
      width := indeterminateWidth;
      height := |DebugMap[0]|;
      lowerCorner := (0, 0);
      upperCorner := (ToUint32(indeterminateWidth * BlockSize), ToUint32(|DebugMap[0]| * BlockSize));
    }

    /** `inBoundaries`: the y test compares with `lowerCorner[0]`, not
        `lowerCorner[1]`, so with `lowerCorner[0]` at 0 this is the half-open
        box whatever `lowerCorner[1]` holds. */
    predicate InBoundaries(x: real, y: real): (b: bool)
      ensures lowerCorner.0 == 0 ==>
                (b <==> 0.0 <= x < upperCorner.0 as real && 0.0 <= y < upperCorner.1 as real)
    {
      x >= lowerCorner.0 as real && x < upperCorner.0 as real &&
      y >= lowerCorner.0 as real && y < upperCorner.1 as real
    }

    /** `gameMapAt(i, j)`: `GAME_MAP[i][j]`, defined only inside the grid. */
    function GameMapAt(i: uint32, j: uint32): (v: int)
      requires i < |gameMap| && j < |gameMap[i]|
      ensures gameMap == DebugMap ==> (v != 0 <==> i == 0 || i == 4 || j == 0 || j == 4 || (i == 2 && j == 2))
    {
      gameMap[i][j]
    }

    /** A point on either upper corner coordinate is outside. */
    lemma UpperCornersExcluded(x: real, y: real)
      requires x == upperCorner.0 as real || y == upperCorner.1 as real
      ensures !InBoundaries(x, y)
    {
    }
  }

  /** The debug world's y range is [0, 400), whatever `WIDTH` holds; its x
      range is [0, WIDTH * 80 mod 2^32). */
  lemma DebugBounds(w: World, x: real, y: real)
    requires w.gameMap == DebugMap && w.lowerCorner == (0, 0)
    requires w.upperCorner == (ToUint32(w.width * BlockSize), 400)
    ensures w.InBoundaries(x, y) <==>
              0.0 <= x < ToUint32(w.width * BlockSize) as real && 0.0 <= y < 400.0
  {
  }
}
