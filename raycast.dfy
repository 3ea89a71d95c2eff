/** `Game.raycast` of the Python prototype (py/main.py): the grid-line walk
    that finds the first wall a ray meets on one family of grid lines.

    The walk has a "discrete" coordinate that sits on the grid lines being
    searched (y for horizontal lines, x for vertical ones) and a "continuous"
    coordinate that moves by `delta_cont` per grid line. The slope of the ray
    (1/tan or tan of the angle) and the sign of its direction along the
    discrete axis are inputs here. */
module Raycaster {
  import opened PyWorld

  /** The distance returned when the ray leaves the map: `1e+8`. */
  const Sentinel: real := 100000000.0

  /** `(distance squared, colour index)` as returned by `raycast`. */
  datatype RayHit = RayHit(distSq: real, color: int)

  /** A completed `raycast`, or the IndexError the map lookup raises when the
      probed cell lies outside the grid. */
  datatype CastResult = Cast(hit: RayHit) | IndexError

  /** A map lookup that may fall outside the grid. */
  datatype Option<T> = None | Some(value: T)

  /** The values the walk starts from: the first grid line ahead on the
      discrete axis, the continuous coordinate there, the block index of that
      line, the per-line step of the continuous coordinate and the direction. */
  datatype Setup = Setup(discrete0: real, cont0: real, block0: int, delta: real, side: int)

  /** The first line lies on the near edge of its block in the direction of
      travel: its left/bottom edge going forward, its last unit going back. */
  predicate WellFormed(s: Setup) {
    && (s.side == 1 || s.side == -1)
    && s.discrete0 == (s.block0 * BlockSize) as real + (if s.side == -1 then (BlockSize - 1) as real else 0.0)
  }

  /** The set-up part of `raycast`, for the player's discrete coordinate `pd`
      and continuous coordinate `pc`. */
  function Start(pd: real, pc: real, slope: real, side: int): (s: Setup)
    requires side == 1 || side == -1
    ensures WellFormed(s) && s.side == side
    ensures s.block0 == (pd / BlockSize as real).Floor + side
    ensures side == 1 ==> pd < s.discrete0
    ensures side == -1 ==> s.discrete0 < pd
  {
    var floorBlock := (pd / BlockSize as real).Floor;
    var offset := pd - (floorBlock * BlockSize) as real;
    var slope' := if side == -1 then -slope else slope;
    var blockOffset := if side == -1 then offset else BlockSize as real - offset;
    var block0 := floorBlock + side;
    var discrete0 := (block0 * BlockSize) as real + (if side == -1 then (BlockSize - 1) as real else 0.0);
    Setup(discrete0, pc + slope' * blockOffset, block0, slope' * BlockSize as real, side)
  }

  /** `Start` written with the two values that `raycast` adjusts by direction. */
  lemma StartIs(pd: real, pc: real, slope: real, side: int, slope': real, blockOffset: real)
    requires side == 1 || side == -1
    requires slope' == if side == -1 then -slope else slope
    requires var offset := pd - ((pd / BlockSize as real).Floor * BlockSize) as real;
             blockOffset == if side == -1 then offset else BlockSize as real - offset
    ensures var block0 := (pd / BlockSize as real).Floor + side;
            Start(pd, pc, slope, side)
            == Setup((block0 * BlockSize) as real + (if side == -1 then (BlockSize - 1) as real else 0.0),
                     pc + slope' * blockOffset, block0, slope' * BlockSize as real, side)
  {
  }

  /** The discrete coordinate after k steps of one block each. */
  function DiscreteAt(s: Setup, k: nat): real {
    if s.side == 1 then s.discrete0 + (BlockSize * k) as real else s.discrete0 - (BlockSize * k) as real
  }

  /** The discrete block index after k steps. */
  function BlockAt(s: Setup, k: nat): int {
    if s.side == 1 then s.block0 + k else s.block0 - k
  }

  /** The continuous coordinate after k steps, accumulated one `delta` at a time. */
  function ContAt(s: Setup, k: nat): real {
    if k == 0 then s.cont0 else ContAt(s, k - 1) + s.delta
  }

  /** Throughout the walk, `discrete // block_size == discrete_block`. */
  lemma DiscreteInBlock(s: Setup, k: nat)
    requires WellFormed(s)
    ensures (DiscreteAt(s, k) / BlockSize as real).Floor == BlockAt(s, k)
  {
    var b := BlockAt(s, k);
    var d := DiscreteAt(s, k);
    assert d == (b * BlockSize) as real + (if s.side == -1 then (BlockSize - 1) as real else 0.0);
    assert b as real <= d / BlockSize as real < (b + 1) as real;
  }

  /** The bounds test of step k, which is always given (discrete, continuous)
      in that order, whichever axis is searched. */
  predicate InBoundsAt(w: World, s: Setup, k: nat)
    requires w.Valid()
  {
    w.InBoundaries(DiscreteAt(s, k), ContAt(s, k))
  }

  /** The cell probed at step k: `GAME_MAP[cont_block][discrete_block]` on
      horizontal lines, `GAME_MAP[discrete_block][cont_block]` on vertical
      ones; None when that lookup is out of range. */
  function CellAt(w: World, alongX: bool, s: Setup, k: nat): (c: Option<int>)
    requires w.Valid() && WellFormed(s) && InBoundsAt(w, s, k)
    ensures alongX ==> c.Some?
  {
    DiscreteInBlock(s, k);
    w.InBoundariesIffCellInGrid(DiscreteAt(s, k), ContAt(s, k));
    var contBlock := (ContAt(s, k) / BlockSize as real).Floor;
    var discreteBlock := BlockAt(s, k);
    var (i, j) := if alongX then (contBlock, discreteBlock) else (discreteBlock, contBlock);
    if i < |w.gameMap| && j < |w.gameMap[i]| then Some(w.gameMap[i][j]) else None
  }

  /** The squared distance from the player to the intersection of step k. */
  function DistAt(s: Setup, k: nat, pd: real, pc: real): real {
    DistSq(DiscreteAt(s, k) - pd, ContAt(s, k) - pc)
  }

  /** The squared length of the offset (d, e), `d ** 2 + e ** 2`. */
  function DistSq(d: real, e: real): (r: real)
    ensures r >= 0.0
    ensures d != 0.0 ==> r > 0.0
  {
    Product(d, d) + Product(e, e)
  }

  /** Real multiplication, with the sign rule for two factors of equal sign. */
  function Product(a: real, b: real): (p: real)
    ensures (a > 0.0 && b > 0.0) || (a < 0.0 && b < 0.0) ==> p > 0.0
  {
    a * b
  }

  /** Blocks left before the discrete coordinate must leave the map. */
  function Remaining(w: World, s: Setup, k: nat): int {
    if s.side == 1 then w.width - BlockAt(s, k) else BlockAt(s, k) + 1
  }

  /** The walk from step k on. */
  function Walk(w: World, alongX: bool, pd: real, pc: real, s: Setup, k: nat): CastResult
    requires w.Valid() && WellFormed(s)
    decreases Remaining(w, s, k)
  {
    if !InBoundsAt(w, s, k) then Cast(RayHit(Sentinel, 0))
    else
      match CellAt(w, alongX, s, k)
      case None => IndexError
      case Some(c) =>
        if c != 0 then Cast(RayHit(DistAt(s, k, pd, pc), c))
        else
          DiscreteInBlock(s, k);
          w.InBoundariesIffCellInGrid(DiscreteAt(s, k), ContAt(s, k));
          Walk(w, alongX, pd, pc, s, k + 1)
  }

  /** The player's (discrete, continuous) coordinates: (y, x) when searching
      horizontal lines, (x, y) otherwise. */
  function Axes(px: real, py: real, alongX: bool): (real, real) {
    if alongX then (py, px) else (px, py)
  }

  /** `raycast(angle, x)` as a function of the player's position. */
  function CastRay(w: World, px: real, py: real, slope: real, side: int, alongX: bool): CastResult
    requires w.Valid() && (side == 1 || side == -1)
  {
    var (pd, pc) := Axes(px, py, alongX);
    Walk(w, alongX, pd, pc, Start(pd, pc, slope, side), 0)
  }

  /** The first grid line lies strictly ahead of the player on the discrete axis. */
  predicate Ahead(s: Setup, pd: real) {
    (s.side == 1 ==> pd < s.discrete0) && (s.side == -1 ==> s.discrete0 < pd)
  }

  /** Every result is the sentinel, an IndexError from probing past the grid
      on vertical lines of a non-square map, or a wall: a non-zero colour at a
      positive squared distance. */
  lemma {:induction false} WalkShape(w: World, alongX: bool, pd: real, pc: real, s: Setup, k: nat)
    requires w.Valid() && WellFormed(s) && Ahead(s, pd)
    ensures Walk(w, alongX, pd, pc, s, k) == IndexError ==> !alongX && w.width != w.height
    ensures Walk(w, alongX, pd, pc, s, k).Cast? ==>
              var h := Walk(w, alongX, pd, pc, s, k).hit;
              h == RayHit(Sentinel, 0) || (h.color != 0 && h.distSq > 0.0)
    decreases Remaining(w, s, k)
  {
    if InBoundsAt(w, s, k) {
      DiscreteInBlock(s, k);
      w.InBoundariesIffCellInGrid(DiscreteAt(s, k), ContAt(s, k));
      match CellAt(w, alongX, s, k)
      case None =>
      case Some(c) =>
        if c != 0 {
          assert DiscreteAt(s, k) != pd;
        } else {
          WalkShape(w, alongX, pd, pc, s, k + 1);
        }
    }
  }

  /** `raycast` returns the sentinel or a wall of non-zero colour at a positive
      squared distance; on a square map it never raises IndexError. */
  lemma CastShape(w: World, px: real, py: real, slope: real, side: int, alongX: bool)
    requires w.Valid() && (side == 1 || side == -1)
    ensures var r := CastRay(w, px, py, slope, side, alongX);
            && (r == IndexError ==> !alongX && w.width != w.height)
            && (r.Cast? ==> r.hit == RayHit(Sentinel, 0) || (r.hit.color != 0 && r.hit.distSq > 0.0))
  {
    var (pd, pc) := Axes(px, py, alongX);
    WalkShape(w, alongX, pd, pc, Start(pd, pc, slope, side), 0);
  }

  /** Step j is passed over: in bounds with an empty cell. */
  predicate Clear(w: World, alongX: bool, s: Setup, j: nat)
    requires w.Valid() && WellFormed(s)
  {
    InBoundsAt(w, s, j) && CellAt(w, alongX, s, j) == Some(0)
  }

  /** What `raycast` returns when it stops at step n. */
  function StopAt(w: World, alongX: bool, pd: real, pc: real, s: Setup, n: nat): CastResult
    requires w.Valid() && WellFormed(s)
  {
    if !InBoundsAt(w, s, n) then Cast(RayHit(Sentinel, 0))
    else match CellAt(w, alongX, s, n)
      case None => IndexError
      case Some(c) => Cast(RayHit(DistAt(s, n, pd, pc), c))
  }

  /** The walk from step k ends at the first step that is not clear. */
  lemma {:induction false} WalkFirstStop(w: World, alongX: bool, pd: real, pc: real, s: Setup, k: nat)
      returns (n: nat)
    requires w.Valid() && WellFormed(s)
    requires forall j :: 0 <= j < k ==> Clear(w, alongX, s, j)
    ensures k <= n && !Clear(w, alongX, s, n)
    ensures forall j :: 0 <= j < n ==> Clear(w, alongX, s, j)
    ensures Walk(w, alongX, pd, pc, s, k) == StopAt(w, alongX, pd, pc, s, n)
    decreases Remaining(w, s, k)
  {
    if Clear(w, alongX, s, k) {
      DiscreteInBlock(s, k);
      w.InBoundariesIffCellInGrid(DiscreteAt(s, k), ContAt(s, k));
      n := WalkFirstStop(w, alongX, pd, pc, s, k + 1);
    } else {
      n := k;
    }
  }

  /** A clear step lies on a block of the grid's first axis. */
  lemma ClearBlock(w: World, alongX: bool, s: Setup, j: nat)
    requires w.Valid() && WellFormed(s) && Clear(w, alongX, s, j)
    ensures 0 <= BlockAt(s, j) < w.width
  {
    DiscreteInBlock(s, j);
    w.InBoundariesIffCellInGrid(DiscreteAt(s, j), ContAt(s, j));
  }

  /** `raycast` is decided by its first step that leaves the map or meets a
      non-empty (or missing) cell, and that step comes within `WIDTH` steps,
      since every step crosses one block of the discrete axis. */
  lemma CastIsFirstStop(w: World, px: real, py: real, slope: real, side: int, alongX: bool)
    requires w.Valid() && (side == 1 || side == -1)
    ensures var (pd, pc) := Axes(px, py, alongX);
            var s := Start(pd, pc, slope, side);
            exists n: nat ::
              && n <= w.width
              && (forall j :: 0 <= j < n ==> Clear(w, alongX, s, j))
              && !Clear(w, alongX, s, n)
              && CastRay(w, px, py, slope, side, alongX) == StopAt(w, alongX, pd, pc, s, n)
  {
    var (pd, pc) := Axes(px, py, alongX);
    var s := Start(pd, pc, slope, side);
    var n := WalkFirstStop(w, alongX, pd, pc, s, 0);
    if n > 0 {
      ClearBlock(w, alongX, s, 0);
      ClearBlock(w, alongX, s, n - 1);
    }
  }

  /** On a square map without walls every ray escapes and yields the sentinel. */
  lemma {:induction false} EmptyMapEscapes(w: World, alongX: bool, pd: real, pc: real, s: Setup, k: nat)
    requires w.Valid() && WellFormed(s) && w.width == w.height
    requires forall i, j :: 0 <= i < |w.gameMap| && 0 <= j < |w.gameMap[i]| ==> w.gameMap[i][j] == 0
    ensures Walk(w, alongX, pd, pc, s, k) == Cast(RayHit(Sentinel, 0))
    decreases Remaining(w, s, k)
  {
    if InBoundsAt(w, s, k) {
      DiscreteInBlock(s, k);
      w.InBoundariesIffCellInGrid(DiscreteAt(s, k), ContAt(s, k));
      EmptyMapEscapes(w, alongX, pd, pc, s, k + 1);
    }
  }

  /** On the debug map, a ray cast along +x from the centre of cell (1, 1)
      meets the border (colour 1) at x = 320: 200 units away. */
  lemma DebugMapBorderHit(w: World)
    requires w.Valid() && w.gameMap == DebugMap
    ensures CastRay(w, 120.0, 120.0, 0.0, 1, false) == Cast(RayHit(40000.0, 1))
  {
    var s := Start(120.0, 120.0, 0.0, 1);
    assert s == Setup(160.0, 120.0, 2, 0.0, 1);
    assert ContAt(s, 1) == 120.0 && ContAt(s, 2) == 120.0;
    assert CellAt(w, false, s, 0) == Some(0);
    assert CellAt(w, false, s, 1) == Some(0);
    assert CellAt(w, false, s, 2) == Some(1);
    assert Walk(w, false, 120.0, 120.0, s, 2) == Cast(RayHit(40000.0, 1));
    assert Walk(w, false, 120.0, 120.0, s, 1) == Walk(w, false, 120.0, 120.0, s, 2);
    assert Walk(w, false, 120.0, 120.0, s, 0) == Walk(w, false, 120.0, 120.0, s, 1);
  }

  /** From the centre of cell (1, 2) the same ray meets the centre block
      (colour 2) at x = 160, nearer than any border wall. */
  lemma DebugMapCentreHit(w: World)
    requires w.Valid() && w.gameMap == DebugMap
    ensures CastRay(w, 120.0, 200.0, 0.0, 1, false) == Cast(RayHit(1600.0, 2))
  {
    var s := Start(120.0, 200.0, 0.0, 1);
    assert s == Setup(160.0, 200.0, 2, 0.0, 1);
    assert CellAt(w, false, s, 0) == Some(2);
  }

  /** `Game.raycast`, with `slope` and `side_sign` supplied by the caller. */
  method Raycast(w: World, px: real, py: real, slope: real, side: int, alongX: bool) returns (r: CastResult)
    requires w.Valid() && (side == 1 || side == -1)
    ensures r == CastRay(w, px, py, slope, side, alongX)
  {
    var playerDiscrete, playerCont := px, py;
    if alongX {
      playerDiscrete, playerCont := py, px;
    }
    var slope' := slope;
    var blockOffset := playerDiscrete - ((playerDiscrete / BlockSize as real).Floor * BlockSize) as real;
    if side == -1 {
      slope' := -slope';
    } else {
      blockOffset := BlockSize as real - blockOffset;
    }
    var deltaCont := slope' * BlockSize as real;
    var cont := playerCont + slope' * blockOffset;
    var discreteBlock := (playerDiscrete / BlockSize as real).Floor + side;
    var discrete := (discreteBlock * BlockSize) as real;
    discrete := discrete + (if side == -1 then (BlockSize - 1) as real else 0.0);

    ghost var s := Start(playerDiscrete, playerCont, slope, side);
    StartIs(playerDiscrete, playerCont, slope, side, slope', blockOffset);
    ghost var k: nat := 0;
    while w.InBoundaries(discrete, cont)
      invariant discrete == DiscreteAt(s, k) && cont == ContAt(s, k) && discreteBlock == BlockAt(s, k)
      invariant deltaCont == s.delta
      invariant Walk(w, alongX, playerDiscrete, playerCont, s, k) == CastRay(w, px, py, slope, side, alongX)
      decreases Remaining(w, s, k)
    {
      DiscreteInBlock(s, k);
      w.InBoundariesIffCellInGrid(discrete, cont);
      var contBlock := (cont / BlockSize as real).Floor;
      var i, j := discreteBlock, contBlock;
      if alongX {
        i, j := contBlock, discreteBlock;
      }
      if !(i < |w.gameMap| && j < |w.gameMap[i]|) {
        assert CellAt(w, alongX, s, k) == None;
        assert Walk(w, alongX, playerDiscrete, playerCont, s, k) == IndexError;
        r := IndexError;
        return;
      }
      var c := w.gameMap[i][j];
      assert CellAt(w, alongX, s, k) == Some(c);
      if c != 0 {
        assert Walk(w, alongX, playerDiscrete, playerCont, s, k) == Cast(RayHit(DistAt(s, k, playerDiscrete, playerCont), c));
        r := Cast(RayHit(DistSq(discrete - playerDiscrete, cont - playerCont), c));
        return;
      }
      cont := cont + deltaCont;
      discreteBlock := discreteBlock + side;
      discrete := discrete + (BlockSize * side) as real;
      k := k + 1;
    }
    assert !InBoundsAt(w, s, k);
    r := Cast(RayHit(Sentinel, 0));
  }
}
