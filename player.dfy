/** The Python prototype's `Player` (py/main.py): position and heading, the
    4-bit neighbour-wall mask and the per-cell collision clamp. */
module PyPlayer {
  import opened Numeric
  import opened PyWorld

  /** The four movement keys polled by `move`: w, s, a and d. */
  datatype Keys = Keys(forward: bool, backward: bool, turnLeft: bool, turnRight: bool)

  const NoKeys: Keys := Keys(false, false, false, false)

  /** Neighbour n of the mask, in the order N, E, S, W:
      `(int(sin(pi/2 * n)), int(cos(pi/2 * n)))`, where truncation turns the
      floating-point residues of sin(pi) and cos(pi/2), cos(3 pi/2) into 0. */
  function Offset(n: int): (d: (int, int))
    requires 0 <= n < 4
    ensures (d.0 == 0) != (d.1 == 0)
  {
    if n == 0 then (0, 1) else if n == 1 then (1, 0) else if n == 2 then (0, -1) else (-1, 0)
  }

  /** Python list indexing, where a negative index counts from the end. */
  function PyAt<T>(s: seq<T>, i: int): T
    requires -|s| <= i < |s|
  {
    if i < 0 then s[|s| + i] else s[i]
  }

  /** A negative index reaches the same element as the index |s| further on. */
  lemma PyAtWraps<T>(s: seq<T>, i: int)
    requires 0 <= i < |s|
    ensures PyAt(s, i - |s|) == PyAt(s, i)
    ensures PyAt(s, -1) == s[|s| - 1]
  {
  }

  /** `GAME_MAP[i][j]` does not raise IndexError. */
  predicate Indexable(g: seq<seq<int>>, i: int, j: int) {
    -|g| <= i < |g| && -|PyAt(g, i)| <= j < |PyAt(g, i)|
  }

  /** All four neighbours of cell (blockX, blockY) can be looked up. */
  predicate NeighboursIndexable(g: seq<seq<int>>, blockX: int, blockY: int) {
    forall n :: 0 <= n < 4 ==> Indexable(g, blockX + Offset(n).0, blockY + Offset(n).1)
  }

  /** Neighbour n of cell (blockX, blockY) holds a wall (a non-zero colour index). */
  predicate WallAt(g: seq<seq<int>>, blockX: int, blockY: int, n: int)
    requires 0 <= n < 4 && NeighboursIndexable(g, blockX, blockY)
  {
    PyAt(PyAt(g, blockX + Offset(n).0), blockY + Offset(n).1) != 0
  }

  /** The wall mask of cell (blockX, blockY): bit n is set exactly when neighbour n is a wall. */
  function WallMask(g: seq<seq<int>>, blockX: int, blockY: int): (m: bv8)
    requires NeighboursIndexable(g, blockX, blockY)
    ensures m < 16
    ensures forall n :: 0 <= n < 4 ==> (m & Bit(n) != 0 <==> WallAt(g, blockX, blockY, n))
  {
    (if WallAt(g, blockX, blockY, 0) then 1 else 0) |
    (if WallAt(g, blockX, blockY, 1) then 2 else 0) |
    (if WallAt(g, blockX, blockY, 2) then 4 else 0) |
    (if WallAt(g, blockX, blockY, 3) then 8 else 0)
  }

  /** The cell index of a world coordinate: `int(v) // block_size`. */
  function CellOf(v: real): (b: int)
    ensures 0.0 <= v ==> (b * BlockSize) as real <= v < ((b + 1) * BlockSize) as real
  {
    Trunc(v) / BlockSize
  }

  function Min(a: real, b: real): real { if a <= b then a else b }
  function Max(a: real, b: real): real { if a >= b then a else b }

  /** The position that `collide` produces from (x, y) in cell (blockX, blockY) with
      mask `flags`: bits 1 and 4 clamp y to the cell's top and bottom rows of
      world units, bits 2 and 8 clamp x to its right and left columns. */
  function CollidePos(x: real, y: real, blockX: int, blockY: int, flags: bv8): (p: (real, real))
    ensures flags & 2 != 0 ==> p.0 <= ((blockX + 1) * BlockSize - 1) as real
    ensures flags & 8 != 0 ==> p.0 >= (blockX * BlockSize) as real
    ensures flags & 1 != 0 ==> p.1 <= ((blockY + 1) * BlockSize - 1) as real
    ensures flags & 4 != 0 ==> p.1 >= (blockY * BlockSize) as real
    ensures p.0 == x || p.0 == ((blockX + 1) * BlockSize - 1) as real || p.0 == (blockX * BlockSize) as real
    ensures p.1 == y || p.1 == ((blockY + 1) * BlockSize - 1) as real || p.1 == (blockY * BlockSize) as real
    ensures flags & 10 == 0 ==> p.0 == x
    ensures flags & 5 == 0 ==> p.1 == y
    ensures (blockX * BlockSize) as real <= x <= ((blockX + 1) * BlockSize - 1) as real ==> p.0 == x
    ensures (blockY * BlockSize) as real <= y <= ((blockY + 1) * BlockSize - 1) as real ==> p.1 == y
    ensures flags & 2 != 0 && x > ((blockX + 1) * BlockSize - 1) as real ==> p.0 == ((blockX + 1) * BlockSize - 1) as real
    ensures flags & 8 != 0 && x < (blockX * BlockSize) as real ==> p.0 == (blockX * BlockSize) as real
    ensures && (flags & 2 == 0 || x <= ((blockX + 1) * BlockSize - 1) as real)
            && (flags & 8 == 0 || x >= (blockX * BlockSize) as real)
            ==> p.0 == x
    ensures flags & 1 != 0 && y > ((blockY + 1) * BlockSize - 1) as real ==> p.1 == ((blockY + 1) * BlockSize - 1) as real
    ensures flags & 4 != 0 && y < (blockY * BlockSize) as real ==> p.1 == (blockY * BlockSize) as real
    ensures && (flags & 1 == 0 || y <= ((blockY + 1) * BlockSize - 1) as real)
            && (flags & 4 == 0 || y >= (blockY * BlockSize) as real)
            ==> p.1 == y
  {
    var y1 := if flags & 1 != 0 then Min(y, ((blockY + 1) * BlockSize - 1) as real) else y;
    var x1 := if flags & 2 != 0 then Min(x, ((blockX + 1) * BlockSize - 1) as real) else x;
    var y2 := if flags & 4 != 0 then Max(y1, (blockY * BlockSize) as real) else y1;
    var x2 := if flags & 8 != 0 then Max(x1, (blockX * BlockSize) as real) else x1;
    (x2, y2)
  }

  /** Colliding a second time with the same mask and cell changes nothing. */
  lemma CollideIdempotent(x: real, y: real, blockX: int, blockY: int, flags: bv8)
    ensures var p := CollidePos(x, y, blockX, blockY, flags);
            CollidePos(p.0, p.1, blockX, blockY, flags) == p
  {
  }

  /** With an empty mask, collision leaves the position alone. */
  lemma CollideEmptyMask(x: real, y: real, blockX: int, blockY: int)
    ensures CollidePos(x, y, blockX, blockY, 0) == (x, y)
  {
  }

  /** 1 for a key that is held, 0 otherwise. */
  function Held(pressed: bool): real {
    if pressed then 1.0 else 0.0
  }

  /** The displacement `move` applies: forward and backward steps along
      (cos dir, sin dir) add up, and so do the two turns. */
  function Moved(x: real, y: real, dir: real, keys: Keys, stepSize: real, turnSpeed: real,
                 cosDir: real, sinDir: real): (s: (real, real, real))
    ensures keys == NoKeys ==> s == (x, y, dir)
    ensures keys.forward == keys.backward ==> s.0 == x && s.1 == y
    ensures keys.turnLeft == keys.turnRight ==> s.2 == dir
    ensures s.0 == x + (Held(keys.forward) - Held(keys.backward)) * stepSize * cosDir
    ensures s.1 == y + (Held(keys.forward) - Held(keys.backward)) * stepSize * sinDir
    ensures s.2 == dir + (Held(keys.turnLeft) - Held(keys.turnRight)) * turnSpeed
  {
    var x1 := if keys.forward then x + stepSize * cosDir else x;
    var y1 := if keys.forward then y + stepSize * sinDir else y;
    var x2 := if keys.backward then x1 - stepSize * cosDir else x1;
    var y2 := if keys.backward then y1 - stepSize * sinDir else y1;
    var d1 := if keys.turnLeft then dir + turnSpeed else dir;
    var d2 := if keys.turnRight then d1 - turnSpeed else d1;
    (x2, y2, d2)
  }

  /** `Player`: its position and heading change every frame. */
  class Player {
    var x: real
    var y: real
    var dir: real
    var blockX: int
    var blockY: int
    const world: World
    const stepSize: real
    const turnSpeed: real
    const fov: real

    /** `Player(pos, world)`: at the centre of cell `pos`, heading 0.01 rad. */
    constructor(px: int, py: int, world: World)
      ensures x == (BlockSize * px + BlockSize / 2) as real
      ensures y == (BlockSize * py + BlockSize / 2) as real
      ensures dir == 0.01 && stepSize == 4.0 && turnSpeed == 0.03 && fov == 60.0
      ensures this.world == world
    {
      x := (BlockSize * px + BlockSize / 2) as real;
      y := (BlockSize * py + BlockSize / 2) as real;
      this.world := world;
      dir := 0.01;
      stepSize := 4.0;
      turnSpeed := 0.03;
      fov := 60.0;
    }

    /** `move`, with the pressed keys and the values of cos(dir) and sin(dir). */
    method Move(keys: Keys, cosDir: real, sinDir: real)
      modifies this`x, this`y, this`dir
      ensures (x, y, dir) == Moved(old(x), old(y), old(dir), keys, stepSize, turnSpeed, cosDir, sinDir)
    {
      if keys.forward {
        x := x + stepSize * cosDir;
        y := y + stepSize * sinDir;
      }
      if keys.backward {
        x := x - stepSize * cosDir;
        y := y - stepSize * sinDir;
      }
      if keys.turnLeft {
        dir := dir + turnSpeed;
      }
      if keys.turnRight {
        dir := dir - turnSpeed;
      }
    }

    /** `find_walls`: records the current cell and returns its wall mask. */
    method FindWalls() returns (flags: bv8)
      requires NeighboursIndexable(world.gameMap, CellOf(x), CellOf(y))
      modifies this`blockX, this`blockY
      ensures blockX == CellOf(x) && blockY == CellOf(y)
      ensures flags == WallMask(world.gameMap, blockX, blockY)
    {
      flags := 0;
      blockX := CellOf(x);
      blockY := CellOf(y);
      var n := 0;
      while n < 4
        invariant 0 <= n <= 4
        invariant flags < Bit(n)
        invariant forall k :: 0 <= k < n ==> (flags & Bit(k) != 0 <==> WallAt(world.gameMap, blockX, blockY, k))
      {
        flags := flags | (if WallAt(world.gameMap, blockX, blockY, n) then Bit(n) else 0);
        n := n + 1;
      }
      MaskDeterminedByBits(flags, WallMask(world.gameMap, blockX, blockY));
    }

    /** `collide`: clamps the position to the recorded cell's edges on the
        sides the mask marks as walls. */
    method Collide(flags: bv8)
      modifies this`x, this`y
      ensures (x, y) == CollidePos(old(x), old(y), blockX, blockY, flags)
    {
      if flags & 1 != 0 {
        y := Min(y, ((blockY + 1) * BlockSize - 1) as real);
      }
      if flags & 2 != 0 {
        x := Min(x, ((blockX + 1) * BlockSize - 1) as real);
      }
      if flags & 4 != 0 {
        y := Max(y, (blockY * BlockSize) as real);
      }
      if flags & 8 != 0 {
        x := Max(x, (blockX * BlockSize) as real);
      }
    }

    /** `loop`: the mask and the cell come from the position before the move;
        the clamp is applied to the position after it. */
    method Loop(keys: Keys, cosDir: real, sinDir: real)
      requires NeighboursIndexable(world.gameMap, CellOf(x), CellOf(y))
      modifies this`x, this`y, this`dir, this`blockX, this`blockY
      ensures blockX == CellOf(old(x)) && blockY == CellOf(old(y))
      ensures var m := Moved(old(x), old(y), old(dir), keys, stepSize, turnSpeed, cosDir, sinDir);
              (x, y) == CollidePos(m.0, m.1, blockX, blockY, WallMask(world.gameMap, blockX, blockY))
              && dir == m.2
    {
      var flags := FindWalls();
      Move(keys, cosDir, sinDir);
      Collide(flags);
    }
  }
}
