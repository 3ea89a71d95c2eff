/** The C++ port's `Player` (cpp/src/player.cpp, cpp/include/player.hpp):
    `find_walls` with the `adjacent` table, `collide` and `loop`, with the
    C++ conversions written out: `(int)` and `(uint)` casts truncate toward
    zero, and `uint` arithmetic wraps modulo 2^32. */
module CppPlayer {
  import opened Numeric
  import opened CppWorld
  import PyPlayer

  /** `Player::adjacent`. */
  const Adjacent: seq<int> := [0, 1, 0, -1]

  /** `(int) v` is defined: the truncation fits a 32-bit `int`. */
  predicate FitsInt(v: real) {
    -0x8000_0000 <= Trunc(v) < 0x8000_0000
  }

  /** `(uint) v` is defined: the truncation fits a `uint`. */
  predicate FitsUint(v: real) {
    0 <= Trunc(v) < Uint32Modulus
  }

  /** `(uint) v`. */
  function ToUint(v: real): uint32
    requires FitsUint(v)
  {
    Trunc(v)
  }

  /** `(int)v / getBlockSize()`: the `int` is converted to `uint` before the
      unsigned division, so a coordinate at or below -1 lands on a huge cell. */
  function CellOf(v: real): (b: uint32)
    requires FitsInt(v)
    ensures -1.0 < v ==> b == Trunc(v) / BlockSize
    ensures v <= -1.0 ==> b == (Trunc(v) + Uint32Modulus) / BlockSize && b >= 0x8000_0000 / BlockSize
  {
    ToUint32(Trunc(v)) / BlockSize
  }

  /** The cell probed for bit n: `(blockX + adjacent[n], blockY + adjacent[(n + 2) % 4])`
      in `uint` arithmetic. Bits 0 and 2 both probe the player's own cell. */
  function Probe(blockX: uint32, blockY: uint32, n: nat): (p: (uint32, uint32))
    requires n < 4
    ensures n == 0 || n == 2 ==> p == (blockX, blockY)
    ensures n == 1 ==> p == (ToUint32(blockX + 1), ToUint32(blockY - 1))
    ensures n == 3 ==> p == (ToUint32(blockX - 1), ToUint32(blockY + 1))
  {
    (ToUint32(blockX + Adjacent[n]), ToUint32(blockY + Adjacent[(n + 2) % 4]))
  }

  /** All four probes fall inside the grid (`GAME_MAP[i][j]` is undefined otherwise). */
  predicate ProbesInMap(w: World, blockX: uint32, blockY: uint32) {
    forall n :: 0 <= n < 4 ==>
      var (i, j) := Probe(blockX, blockY, n);
      i < |w.gameMap| && j < |w.gameMap[i]|
  }

  /** The cell probed for bit n holds a wall. */
  predicate WallAt(w: World, blockX: uint32, blockY: uint32, n: nat)
    requires n < 4 && ProbesInMap(w, blockX, blockY)
  {
    var (i, j) := Probe(blockX, blockY, n);
    w.GameMapAt(i, j) != 0
  }

  /** The mask `find_walls` returns: bit n is set exactly when probe n hits
      a wall, so bits 0 and 2 are always equal. */
  function WallMask(w: World, blockX: uint32, blockY: uint32): (m: bv8)
    requires ProbesInMap(w, blockX, blockY)
    ensures m < 16
    ensures forall n :: 0 <= n < 4 ==> (m & Bit(n) != 0 <==> WallAt(w, blockX, blockY, n))
    ensures m & 1 != 0 <==> m & 4 != 0
  {
    (if WallAt(w, blockX, blockY, 0) then 1 else 0) |
    (if WallAt(w, blockX, blockY, 1) then 2 else 0) |
    (if WallAt(w, blockX, blockY, 2) then 4 else 0) |
    (if WallAt(w, blockX, blockY, 3) then 8 else 0)
  }

  /** Every `(uint)` cast `collide` performs is defined: bit 1 casts y, bit 2
      casts x, bit 4 casts y unless bits 1 or 2 already made it a `uint`, and
      bit 8 casts x unless bit 4 already did. */
  predicate CollideDefined(x: real, y: real, flags: bv8) {
    && (flags & 1 != 0 ==> FitsUint(y))
    && (flags & 2 != 0 ==> FitsUint(x))
    && (flags & 4 != 0 && flags & 3 == 0 ==> FitsUint(y))
    && (flags & 8 != 0 && flags & 4 == 0 ==> FitsUint(x))
  }

  function MinU(a: uint32, b: uint32): uint32 { if a <= b then a else b }
  function MaxU(a: uint32, b: uint32): uint32 { if a >= b then a else b }

  /** `collide` as written: bit 2 assigns y from x and bit 4 assigns x from
      y, and the upper bounds are `(block + 1) * (blockSize - 1)`. */
  function CollideAsWritten(x: real, y: real, blockX: uint32, blockY: uint32, flags: bv8): (p: (real, real))
    requires CollideDefined(x, y, flags)
    ensures flags == 0 ==> p == (x, y)
    ensures flags & 12 == 0 ==> p.0 == x
    ensures flags & 3 == 0 ==> p.1 == y
    ensures flags & 2 != 0 ==> p.1 <= ToUint32((blockX + 1) * (BlockSize - 1)) as real
    ensures flags & 1 != 0 && flags & 2 == 0 ==> p.1 <= ToUint32((blockY + 1) * (BlockSize - 1)) as real
    ensures flags & 8 != 0 ==> p.0 >= ToUint32(blockX * BlockSize) as real
    ensures flags & 4 != 0 && flags & 8 == 0 ==> p.0 >= ToUint32(blockY * BlockSize) as real
    ensures flags & 3 == 1 ==> p.1 == MinU(ToUint(y), ToUint32((blockY + 1) * (BlockSize - 1))) as real
    ensures flags & 2 != 0 ==> p.1 == MinU(ToUint(x), ToUint32((blockX + 1) * (BlockSize - 1))) as real
    ensures flags & 12 == 4 ==> p.0 == MaxU(ToUint(p.1), ToUint32(blockY * BlockSize)) as real
    ensures flags & 12 == 8 ==> p.0 == MaxU(ToUint(x), ToUint32(blockX * BlockSize)) as real
    ensures flags & 12 == 12 ==>
              p.0 == MaxU(MaxU(ToUint(p.1), ToUint32(blockY * BlockSize)), ToUint32(blockX * BlockSize)) as real
  {
    var y1 := if flags & 1 != 0 then MinU(ToUint(y), ToUint32((blockY + 1) * (BlockSize - 1))) as real else y;
    var y2 := if flags & 2 != 0 then MinU(ToUint(x), ToUint32((blockX + 1) * (BlockSize - 1))) as real else y1;
    var x3 := if flags & 4 != 0 then MaxU(ToUint(y2), ToUint32(blockY * BlockSize)) as real else x;
    var x4 := if flags & 8 != 0 then MaxU(ToUint(x3), ToUint32(blockX * BlockSize)) as real else x3;
    (x4, y2)
  }

  /** Two inputs on which `collide` departs from the clamp of the Python
      original: with only the east wall bit (2) set, the player inside cell
      (1, 1) is moved along y instead of x; with only bit 1 set, a player at
      y = 318, inside cell 3 (rows 240 to 319), is pushed back to 316 = 4 * 79. */
  lemma CollideAsWrittenDeparts()
    ensures CollideAsWritten(150.5, 100.0, 1, 1, 2) == (150.5, 150.0)
    ensures PyPlayer.CollidePos(150.5, 100.0, 1, 1, 2) == (150.5, 100.0)
    ensures CollideAsWritten(318.0, 318.0, 3, 3, 1) == (318.0, 316.0)
    ensures PyPlayer.CollidePos(318.0, 318.0, 3, 3, 1) == (318.0, 318.0)
  {
    assert Trunc(150.5) == 150;
    assert Trunc(318.0) == 318;
  }

  /** `Player`. */
  class Player {
    var x: real
    var y: real
    var dir: real
    var blockX: uint32
    var blockY: uint32
    const world: World
    const stepSize: real
    const turnSpeed: real
    const fov: real

    /** `Player(pos, world)`. `stepSize, turnSpeed = 4.0, 0.03;` is a comma
        expression that assigns only `turnSpeed`, and assigns it 4.0;
        `stepSize`, `blockX` and `blockY` are left unassigned. */
    constructor(px: int, py: int, world: World)
      ensures x == (px as real + 0.5) * BlockSize as real
      ensures y == (py as real + 0.5) * BlockSize as real
      ensures dir == 0.01 && turnSpeed == 4.0 && fov == 60.0
      ensures this.world == world
    {
      this.world := world;
      x := (px as real + 0.5) * BlockSize as real;
      y := (py as real + 0.5) * BlockSize as real;
      dir := 0.01;
      turnSpeed := 4.0;
      fov := 60.0;
    }

    /** `move`, whose body is empty. */
    method Move()
      ensures unchanged(this)
    {
    }

    /** `find_walls`: records the current cell and returns its wall mask. */
    method FindWalls() returns (wallFlags: bv8)
      requires FitsInt(x) && FitsInt(y)
      requires ProbesInMap(world, CellOf(x), CellOf(y))
      modifies this`blockX, this`blockY
      ensures blockX == CellOf(x) && blockY == CellOf(y)
      ensures wallFlags == WallMask(world, blockX, blockY)
    {
      wallFlags := 0;
      blockX := ToUint32(Trunc(x)) / BlockSize;
      blockY := ToUint32(Trunc(y)) / BlockSize;
      for n := 0 to 4
        invariant wallFlags < Bit(n)
        invariant forall k :: 0 <= k < n ==> (wallFlags & Bit(k) != 0 <==> WallAt(world, blockX, blockY, k))
      {
        var i, j := ToUint32(blockX + Adjacent[n]), ToUint32(blockY + Adjacent[(n + 2) % 4]);
        assert (i, j) == Probe(blockX, blockY, n);
        wallFlags := wallFlags | (if world.GameMapAt(i, j) != 0 then Bit(n) else 0);
      }
      MaskDeterminedByBits(wallFlags, WallMask(world, blockX, blockY));
    }

    /** `collide`, exactly as written. */
    method Collide(wallFlags: bv8)
      requires CollideDefined(x, y, wallFlags)
      modifies this`x, this`y
      ensures (x, y) == CollideAsWritten(old(x), old(y), blockX, blockY, wallFlags)
    {
      if wallFlags & 1 != 0 {
        y := MinU(ToUint(y), ToUint32((blockY + 1) * (BlockSize - 1))) as real;
      }
      if wallFlags & 2 != 0 {
        y := MinU(ToUint(x), ToUint32((blockX + 1) * (BlockSize - 1))) as real;
      }
      if wallFlags & 4 != 0 {
        x := MaxU(ToUint(y), ToUint32(blockY * BlockSize)) as real;
      }
      if wallFlags & 8 != 0 {
        x := MaxU(ToUint(x), ToUint32(blockX * BlockSize)) as real;
      }
    }

    /** `loop`: with `move` empty, the position is clamped where it stands,
        by the mask of its own cell. */
    method Loop()
      requires FitsInt(x) && FitsInt(y)
      requires ProbesInMap(world, CellOf(x), CellOf(y))
      requires CollideDefined(x, y, WallMask(world, CellOf(x), CellOf(y)))
      modifies this`x, this`y, this`blockX, this`blockY
      ensures blockX == CellOf(old(x)) && blockY == CellOf(old(y))
      ensures (x, y) == CollideAsWritten(old(x), old(y), blockX, blockY, WallMask(world, blockX, blockY))
    {
      var wallFlags := FindWalls();
      Move();
      Collide(wallFlags);
    }
  }
}
