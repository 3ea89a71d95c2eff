# Raycaster grid logic in Dafny

This project models the grid logic behind a small pygame raycaster and
proves properties of it. The raycaster exists in two versions: a Python
prototype (`py/main.py` with its wrapper `py/pglib.py`) and an unfinished
C++ port (`cpp/src/world.cpp`, `cpp/src/player.cpp`) with its own pygame
wrapper (`pglib.py`).

- **World.** The map is a rectangular grid of palette indices, with 80 world
  units per cell. It has a half-open bounds test. `load_map` builds the
  palette from an RGBA image.
- **Player.** `find_walls` builds a 4-bit mask of the walls around the
  player's cell. `collide` clamps the position against the cell's edges.
  `loop` runs find_walls, move and collide in order.
- **Raycast.** `Game.raycast` walks one grid line per step along one axis
  until it leaves the map or finds a non-empty cell. Per screen column,
  `Game.draw` keeps the nearer of the two axis hits and carries the
  `prev_shaded` flag across columns.
- **Screen helpers.** Both wrappers flip y between first-quadrant and
  screen coordinates. They also provide text centring, the on-screen test,
  the command-line flag choice, the caption and the frame counter of `loop`.

The code's own form is kept, file by file:

- Objects whose fields change are classes with `modifies` frames: `Player`,
  and `Screen.frame`.
- Objects fixed after construction are classes with `const` fields: both
  `World`s.
- Loops are methods with loop invariants, each proved against a
  specification function: `load_map`, `find_walls`, the raycast walk, the
  column loop of `draw`, the point-list transforms and `loop`.
- Expressions are functions.

Floating-point values are `real`.

- `int(v)` in Python and `(int)`/`(uint)` in C++ truncate toward zero
  (`Numeric.Trunc`).
- Python `//` and `%` with a positive divisor are floor operations.
- C++ `uint` arithmetic wraps modulo 2^32 (`Numeric.ToUint32`).

The model follows the code as written, including these details:

- The raycast bounds test always receives (discrete, continuous), whichever
  axis is searched. On a map that is not square, a vertical-line search can
  therefore probe a cell outside the grid and raise IndexError. The model
  returns that IndexError (`Raycaster.CastResult.IndexError`).
- The walk's step bound is the map width (`Raycaster.CastIsFirstStop`), not
  the larger of width and height.
- In the C++ `World`, the line `WIDTH, HEIGHT = ...` is a comma expression.
  It assigns only `HEIGHT`, and gives it the row length. `WIDTH` is never
  assigned, so its value is a constructor parameter of the model.
- In the C++ `Player` constructor, `stepSize, turnSpeed = 4.0, 0.03` sets
  `turnSpeed` to 4.0. `stepSize` is left unassigned.

## Model

| member | source | states |
|---|---|---|
| Numeric.Trunc | py/main.py:92 | `int(v)` truncates toward zero: the result is within 1 of `v`, on the side of 0, and is non-negative exactly when `v > -1` |
| Numeric.ToUint32 | cpp/src/player.cpp:38 | conversion to `uint` is reduction modulo 2^32 for every integer: the result lies in [0, 2^32) and differs from the input by a multiple of 2^32; it is the identity on [0, 2^32) and adds 2^32 on [-2^32, 0) |
| PyWorld.IndexOf | py/main.py:44 | `colors.index(c)` returns the first position holding `c` |
| PyWorld.LoadMap | py/main.py:33-46 | on a square image: the palette starts with the invisible colour, has no repeats, holds every pixel colour and only pixel colours; every map entry indexes the palette; alpha-0 pixels leave 0; any other pixel gets an index of at least 1 whose colour is the pixel's |
| PyWorld.ScanColumn | py/main.py:39-44 | the inner loop keeps the palette invariant and extends the scanned region by one full column |
| PyWorld.World.Debug | py/main.py:10-31 | the debug world is the 5×5 map with its three colours, a valid grid of width and height 5 and upper corner (400, 400) |
| PyWorld.World.FromImage | py/main.py:24-31 | a world loaded from a square image is a valid grid whose width and height are the image size; its palette starts with the invisible colour, has no repeats, holds every pixel colour and only pixel colours; `GAME_MAP[i][j]` is 0 for a transparent pixel (i, j) and otherwise an index of at least 1 whose palette colour is the pixel's |
| PyWorld.OpaqueImageFillsMap | py/main.py:38-44 | a world loaded from an image with no transparent pixel has a wall colour in every cell |
| PyWorld.World.InBoundaries | py/main.py:48-50 | the bounds test is the half-open box `0 <= x < WIDTH*80`, `0 <= y < HEIGHT*80`; the upper edges are excluded |
| PyWorld.World.InBoundariesIffCellInGrid | py/main.py:48-50 | a point is in bounds exactly when the cell `(x // 80, y // 80)` lies in the grid |
| PyPlayer.Offset | py/main.py:99-100 | the neighbour offsets `(int(sin(pi/2 n)), int(cos(pi/2 n)))` move along exactly one axis |
| PyPlayer.PyAtWraps | py/main.py:99-100 | Python indexing as used by `find_walls`: index `i - len` reaches the same element as `i`, and index -1 the last one |
| PyPlayer.CellOf | py/main.py:92-93 | `int(v) // 80` is the cell containing a non-negative coordinate |
| PyPlayer.WallMask | py/main.py:89-104 | the mask is below 16, and bit n is set exactly when neighbour n is a wall |
| PyPlayer.CollidePos | py/main.py:106-115 | bit 2 moves an x beyond the cell's last column onto that column (`min(x, (bx+1)*80-1)`), bit 8 moves an x below the first column onto it, and otherwise x is unchanged; bits 1 and 4 do the same for y; each bound holds whenever its bit is set; a coordinate already inside the cell is unchanged |
| PyPlayer.CollideIdempotent | py/main.py:106-115 | colliding twice with the same mask and cell equals colliding once |
| PyPlayer.CollideEmptyMask | py/main.py:106-115 | `collide(0)` changes nothing |
| PyPlayer.Moved | py/main.py:64-79 | the new x is `x + (F - B) * step * cos(dir)`, the new y `y + (F - B) * step * sin(dir)` and the new heading `dir + (L - R) * turn_speed`, where F, B, L, R are 1 for a held key and 0 otherwise; so no keys means no change and opposite keys cancel |
| PyPlayer.Player.constructor | py/main.py:54-62 | the player starts at the centre of its cell, heading 0.01, with step 4.0, turn speed 0.03 and field of view 60 |
| PyPlayer.Player.Move | py/main.py:64-79 | `move` applies `Moved` to the position and heading |
| PyPlayer.Player.FindWalls | py/main.py:89-104 | records `int(x) // 80`, `int(y) // 80` as the cell and returns its wall mask |
| PyPlayer.Player.Collide | py/main.py:106-115 | `collide` moves the player to `CollidePos` of its position |
| PyPlayer.Player.Loop | py/main.py:117-120 | the cell and mask come from the position before the move; the clamp is applied to the moved position |
| Raycaster.Start | py/main.py:164-184 | the first grid line lies on the near edge of the next block in the direction of travel, strictly ahead of the player |
| Raycaster.DiscreteInBlock | py/main.py:182-204 | loop invariant: `discrete // 80 == discrete_block` at every step |
| Raycaster.CellAt | py/main.py:197-198 | the probe on horizontal lines (`GAME_MAP[cont_block][discrete_block]`) never leaves the grid |
| Raycaster.DistSq | py/main.py:199 | the squared distance is non-negative, and positive when the discrete offset is non-zero |
| Raycaster.Walk | py/main.py:186-209 | the reference definition of the grid-line walk from step k on; what it returns is stated by `WalkShape`, `WalkFirstStop` and `CastIsFirstStop` |
| Raycaster.CastRay | py/main.py:142-209 | `raycast` as a function of the player's position: the walk from the first grid line ahead; its results are stated by `CastShape` and `CastIsFirstStop` |
| Raycaster.WalkShape | py/main.py:188-209 | the walk ends with the sentinel, with a wall of non-zero colour at a positive squared distance, or with an IndexError, and the IndexError occurs only on vertical lines of a map that is not square |
| Raycaster.CastShape | py/main.py:142-209 | the same shape for `raycast` from the player's position |
| Raycaster.WalkFirstStop | py/main.py:188-204 | the walk's result is decided by its first step that is not clear, that is, out of bounds or on a non-empty or missing cell |
| Raycaster.CastIsFirstStop | py/main.py:188-209 | `raycast` returns the result of its first step that is not clear; that step comes within WIDTH steps, so the loop terminates; the returned colour is the probed cell |
| Raycaster.EmptyMapEscapes | py/main.py:188-209 | on a square map without walls every ray returns the sentinel `(1e8, 0)` |
| Raycaster.DebugMapBorderHit | py/main.py:188-209 | on the debug map, the ray along +x from (120, 120) meets the border (colour 1) at squared distance 40000 |
| Raycaster.DebugMapCentreHit | py/main.py:188-209 | on the debug map, the ray along +x from (120, 200) meets the centre block (colour 2) at squared distance 1600 |
| Raycaster.Raycast | py/main.py:142-209 | the loop computes exactly `CastRay`, the walk specification |
| Columns.AddChannel | py/main.py:223-225 | pygame colour addition on one channel is `min(a + b, 255)`: at most the sum, the sum or 255, and never below either input |
| Columns.AddColor | py/main.py:225 | `color += SHADE` adds channel by channel and saturates: every channel is at most the sum, equals the sum when below 255, and is never darker than either input; adding the all-zero colour changes nothing |
| Columns.Nearer | py/main.py:220 | the winning hit is one of the two and is at least as near as both; the horizontal-line hit wins ties |
| Columns.ComposeColumns | py/main.py:211-233 | each column draws the nearer hit, shaded by the flag left by the columns before it and lightened by `SHADE` when shaded; the first column is never shaded |
| Columns.NextShade | py/main.py:229-233 | a column that is not decisive keeps the flag; a decisive one sets it exactly when the drawn hit is the horizontal-line one and strictly nearer than the vertical-line one |
| Columns.DecisiveIff | py/main.py:229-233 | a column updates the flag exactly when the horizontal distance is below 97% or above 103% of the vertical one |
| Columns.EqualDistancesKeepFlag | py/main.py:229-233 | two hits at equal distance never change the flag |
| Columns.ShadeBeforeIff | py/main.py:215-233 | the flag is set for column n exactly when some earlier column was decisive with the horizontal hit nearer, and no decisive column followed it |
| Columns.ShadeStable | py/main.py:215-233 | without a decisive column in between, the flag carries over unchanged |
| CppWorld.World.Debug | cpp/src/world.cpp:4-20 | the debug map is set; `HEIGHT` gets the row length 5; `WIDTH` keeps its indeterminate value; the upper corner is `(WIDTH*80 mod 2^32, 400)` |
| CppWorld.World.InBoundaries | cpp/src/world.cpp:26-29 | with `lowerCorner[0] = 0` the test is the half-open box, whatever `lowerCorner[1]` holds, since the y test reuses `lowerCorner[0]` |
| CppWorld.World.GameMapAt | cpp/include/world.hpp:24 | the lookup is defined only inside the grid; on the debug map exactly the border cells and the centre cell are non-zero |
| CppWorld.World.UpperCornersExcluded | cpp/src/world.cpp:27-28 | a point on either upper corner coordinate is out of bounds |
| CppWorld.DebugBounds | cpp/src/world.cpp:17-19 | in the debug world, y ranges over [0, 400) and x over [0, WIDTH*80 mod 2^32) |
| CppPlayer.CellOf | cpp/src/player.cpp:38-39 | `(int)v / blockSize` is the usual cell index for `v > -1`; at or below -1 the unsigned division yields a cell index of at least 2^31/80 |
| CppPlayer.Probe | cpp/src/player.cpp:41-47 | with `adjacent = {0,1,0,-1}`, probes 0 and 2 both hit `(blockX, blockY)`; probe 1 hits `(blockX+1, blockY-1)` and probe 3 hits `(blockX-1, blockY+1)`, with `uint` wrap-around |
| CppPlayer.WallMask | cpp/src/player.cpp:35-50 | the mask is below 16, bit n is set exactly when probe n hits a wall, and bits 0 and 2 are always equal |
| CppPlayer.CollideAsWritten | cpp/src/player.cpp:52-65 | the values each bit writes, as written: bit 1 sets `y = min((uint)y, (blockY+1)*79)`, bit 2 then sets `y = min((uint)x, (blockX+1)*79)`, bit 4 sets `x = max((uint)y, blockY*80)` from the new y, and bit 8 then sets `x = max((uint)x, blockX*80)`; `collide(0)` changes nothing, only bits 4 and 8 write x and only bits 1 and 2 write y |
| CppPlayer.CollideAsWrittenDeparts | cpp/src/player.cpp:53-58 | two concrete inputs on which the C++ `collide` and the Python clamp disagree |
| CppPlayer.Player.constructor | cpp/src/player.cpp:7-14 | the player starts at `(pos + 0.5) * 80`, heading 0.01, with `turnSpeed` 4.0 and field of view 60 |
| CppPlayer.Player.Move | cpp/src/player.cpp:20-22 | `move` has an empty body and changes nothing |
| CppPlayer.Player.FindWalls | cpp/src/player.cpp:35-50 | records the cell `(int)x / 80`, `(int)y / 80` in `uint` arithmetic and returns its wall mask |
| CppPlayer.Player.Collide | cpp/src/player.cpp:52-65 | `collide` moves the player to `CollideAsWritten` of its position |
| CppPlayer.Player.Loop | cpp/src/player.cpp:67-71 | `move` is empty, so `loop` clamps the unchanged position by the mask of its own cell |
| Display.SelectFlags | py/pglib.py:43-51 | the chosen flags satisfy `FlagsFor`: `DOUBLEBUF` is always set; `f` in `argv[1]` adds `FULLSCREEN` and `HWSURFACE` and nothing else; otherwise `n` adds `NOFRAME` and `r` adds `RESIZABLE`; without an option only `DOUBLEBUF` is set; pglib.py:14-22 applies the same rule |
| PyPglib.Caption | py/pglib.py:58 | the caption is the title, one space, then the version |
| PyPglib.CenterTextLocation | py/pglib.py:92-96 | `center_text` moves the point left by half the text width and up by half its height, each half rounded down: twice the offset is the size or one less |
| PyPglib.Screen.constructor | py/pglib.py:33-60 | `HEIGHT = int(width / aspect_ratio)`; the flags satisfy `FlagsFor` (all five flags as `SelectFlags` chooses them); the caption is `Caption(title, version)`; the frame count starts at 0 |
| PyPglib.Screen.Q1Point | py/pglib.py:69-70 | `(int(x), int(HEIGHT - y))`: a point with `x >= 0` and `y <= HEIGHT` lands on the pixel that holds `(x, HEIGHT - y)`, each coordinate rounded down |
| PyPglib.Screen.Q1PointInvolution | py/pglib.py:69-70 | on integer points, the flip `(int(x), int(HEIGHT - y))` is its own inverse |
| PyPglib.Screen.Q1Points | py/pglib.py:72-76 | the list case yields a list of the same length, with element i the transform of input element i |
| PyPglib.Screen.Q1Rect | py/pglib.py:81-84 | x and the dimensions are kept, and the new bottom edge is the flipped top edge |
| PyPglib.Screen.Q1RectInvolution | py/pglib.py:81-84 | the rectangle flip is its own inverse |
| PyPglib.Screen.CenterTextCentres | py/pglib.py:92-96 | the text box drawn at `(x - w//2, y + h//2)` is centred on the flipped point to within half a pixel on each axis |
| PyPglib.Screen.Loop | py/pglib.py:125-135 | returns False with the frame count unchanged exactly when an event is QUIT or an ESC key-down; otherwise it counts one frame |
| Pglib.Caption | pglib.py:28-31 | without a version the caption is the title and a space; with one it is the title, a space, then `" v. "` and the version |
| Pglib.Screen.constructor | pglib.py:9-34 | the size is `dims`; the flags satisfy `FlagsFor` (all five flags as `SelectFlags` chooses them); the caption is `Caption(title, version)`; the frame count starts at 0 |
| Pglib.Screen.Q1Point | pglib.py:37-38 | `[int(x), HEIGHT - int(y)]`: for `x, y >= 0`, x is rounded down but the flipped y `HEIGHT - y` is rounded up, since y is truncated before the subtraction |
| Pglib.Screen.Q1PointTwice | pglib.py:37-38 | `[int(x), HEIGHT - int(y)]` applied twice returns the input truncated toward zero, so it is an involution on integer points |
| Pglib.Screen.Q1Transform | pglib.py:36-46 | a point is flipped; a non-empty list is flipped element by element, keeping length and order; an empty list raises IndexError at `location[0]` |
| Pglib.Screen.Q1Rect | pglib.py:48-49 | x and the dimensions are kept, and the new bottom edge is the flipped top edge |
| Pglib.Screen.Q1RectInvolution | pglib.py:48-49 | applied to its own output, the rectangle flip returns the original |
| Pglib.Screen.IsOnScreen | pglib.py:83-86 | `is_onscreen` accepts every square of half-side `radius` around `location` that has a point strictly inside the screen |
| Pglib.Screen.OnScreenMeetsScreen | pglib.py:83-86 | for a non-negative radius on a non-empty screen, `is_onscreen` holds exactly when some point of that square lies strictly inside the screen |
| Pglib.Screen.OnScreenPoint | pglib.py:83-86 | with radius 0 the test is strict: `0 < x < WIDTH` and `0 < y < HEIGHT` |
| Pglib.Screen.OnScreenMonotone | pglib.py:83-86 | a larger radius never turns true into false |
| Pglib.Screen.Loop | pglib.py:88-98 | returns False with the frame count unchanged exactly when an event is an ESC key-down (QUIT is ignored); otherwise it counts one frame |

## Left out

- Trigonometry: `move`'s `cos`/`sin` and `dirvec` (py/main.py:64-87). The
  model takes `cos(dir)` and `sin(dir)` as inputs.
- The key polling in `move` (`pg.key.get_pressed`). It is a foreign call;
  the pressed keys are an input.
- The computation of `slope` and `side_sign` from `tan`, `sin` and `cos` in
  `raycast` (py/main.py:150-162). These are inputs; `side_sign = 0` (an
  angle exactly on an axis) is not modelled.
- `Raycaster.Raycast`: the debug circles the loop draws (py/main.py:190-194)
  are not modelled.
- `Columns.ComposeColumns`: the fisheye correction, the projection laws
  (`PROJ_PLANE_DIST`, `VARIANCE`, `exp`, `sqrt`), the line drawing and the
  angle decrement of `draw` are not modelled. Its requirement that every
  column's second distance be positive is met by every `raycast` result
  (`Raycaster.CastShape`: the sentinel or a positive squared distance).
- The minimap and debug drawing (py/main.py:252-275). These are drawing
  only.
- All pygame I/O in both wrappers: `init`, `set_mode`, blits, fonts,
  gfxdraw, `clock.tick`, `display.flip`, image loading. The events `loop`
  reads and `sys.argv` are inputs.
- `hcenter_text` (py/pglib.py:98-102), which passes its arguments in the
  wrong order.
- `text`'s offset arithmetic in pglib.py (pglib.py:51-54), and `polygon`'s
  per-vertex redraw (pglib.py:62-67). Both are drawing plumbing.
- `main()` and the frame loop (py/main.py:278-293).
- C++ `getPos` and `getDirVec`, which return pointers to locals (undefined
  behaviour).
- The empty-bodied `World::loadMap`, and with it the non-debug path of the
  C++ `World` constructor (flowing off the end of a non-void function).
- `PyWorld.LoadMap`: requires a square image. Rows are sized `size[1]` but
  indexed by `i < size[0]`, so any other image raises IndexError or leaves
  rows unwritten; that error path is not modelled.
- `PyWorld.World.FromImage`: requires a non-empty image. On an empty image
  `len(self.GAME_MAP[0])` (py/main.py:27) raises IndexError; that error path
  is not modelled.
- `PyPglib.Screen.constructor`: requires `aspect_ratio != 0`. The
  ZeroDivisionError that `width / aspect_ratio` (py/pglib.py:53) raises
  otherwise is not modelled.
- `PyPlayer.Player.FindWalls`: requires the four neighbour indices to lie in
  Python's legal index range. The IndexError raised otherwise is not
  modelled.
- `CppPlayer.Player.FindWalls`, `CppPlayer.Player.Collide`: require the casts
  and map lookups to be defined. Out-of-range `(int)`/`(uint)` casts and
  out-of-range vector indexing are undefined behaviour in C++.
- Floating-point rounding: reals are exact, so, for example, `1.0 - 0.03` is
  exactly 0.97 and `(x - px) ** 2` has no rounding error.
- cpp/include/game.hpp and the other headers hold declarations only.
  world.hpp's constants and accessors are folded into `CppWorld`.

## Findings

| source | as written | input that shows it | evidently intended | confidence | as-written member | corrected member |
|---|---|---|---|---|---|---|
| cpp/src/player.cpp:56-61 | bit 2 assigns `y = min((uint)x, ...)` and bit 4 assigns `x = max((uint)y, ...)`: the east and south clamps write the other coordinate | `blockX = blockY = 1`, `x = 150.5`, `y = 100`, mask 2: `y` becomes 150 | bit 2 clamps x and bit 4 clamps y, as the Python original does (py/main.py:110-113) | high; not executed | CppPlayer.CollideAsWrittenDeparts | PyPlayer.CollidePos |
| cpp/src/player.cpp:54 | the upper bound is `(blockY + 1) * (blockSize - 1)` | `blockY = 3`, `y = 318`, mask 1: `y` becomes 316 although 318 lies inside cell 3 (240 to 319) | `(blockY + 1) * blockSize - 1`, as in py/main.py:109 | high; not executed | CppPlayer.CollideAsWrittenDeparts | PyPlayer.CollidePos |
