# Demon: a cyclic cellular automaton, modelled in Dafny

The Demon component simulates a cyclic cellular automaton on a 640 × 480 toroidal grid. Every cell holds
one of `num_states` states arranged in a cycle. A neighbour *eats* a cell when it holds the cell's cyclic
successor; the cell then takes that neighbour's state. The neighbours are tried in a fixed order: east,
west, south, north, then (Moore neighbourhood only) south-east, south-west, north-east, north-west. The
first neighbour that can eat the cell wins. If none can, the cell keeps its state. A generation writes
every next state into a second buffer while it only reads the current one. The two buffers are then
swapped. Each tick of the frame loop paints the grid through three colour tables into an RGBA pixel
buffer and advances one generation, provided the simulation is running or was just reseeded. It then
picks the delay before the next tick.

The project has four modules:

- `Rule` (rule.dfy): the pure part. `Wrap` (single-step torus addressing), `CanEat`, `PixValue`
  (the next state of one cell, written as the source's cascade), and one generation (`Generation`).
  It also holds an independent reference definition of the rule: `NextState`, a first-match search
  (`FirstEater`) over the priority list of neighbour offsets.
- `RuleProperties` (rule_properties.dfy): lemmas about the rule. The eating relation is the cyclic
  successor. The cascade agrees with the reference search. First-match priority holds, with east
  winning ties. No state is invented and the state range is preserved. Von Neumann mode ignores
  every cell other than the cell and its four orthogonal neighbours. Edges wrap around.
- `Simulation` (simulation.dfy): the `Demon` class. It holds the two cell buffers (`view`, `view2`),
  the colour tables, the pixel buffer `data` and the parameter flags. Its methods model
  `initialize_colormap`, `initialize_state`, `swap_buffers`, `update_view`, `set_color`, the painting
  loop and `go_update`. Each method names in `modifies` the only fields and arrays it may change, and states their new
  contents exactly, in terms of the pure functions.
  `Ready()` is the invariant the loop keeps: colour tables of length `num_states` and every cell in
  `[0, num_states)`.
- `Scenario` (scenario.dfy): one worked generation on the 640 × 480 grid with four states. A single
  state-1 cell at (5, 5) spreads to its four orthogonal neighbours and nothing else changes.

External services become parameters. `Math.random` is a sequence of draws in `[0, 1)`, one per cell.
The four floating-point colour functions are a `palette` function from a colour scheme and a
normalised index to three bytes. The timer is the delay that `GoUpdate` returns (`None` once stopped).

Two behaviours of the code worth knowing:

- Seeding is not uniform. `Math.round(Math.random() * (num_states - 1))` gives every seeded state in
  `[0, num_states - 1]`, but the two end states get half the weight of the others. Only the range is
  modelled (`SeedState`).
- `initialize_colormap` also sets `justInitialized`. So the tick after a colour-scheme change
  advances one generation even while paused, exactly as after a reseed.

## Model

| member | source | states |
|---|---|---|
| `Rule.Wrap` | src/index.jsx:218-228 | The result always lies in `[0, dim)`. For `-1 <= c <= dim` it equals `c` modulo `dim`: identity in range, `-1` goes to `dim-1`, `dim` goes to `0`. |
| `Rule.CanEat` | src/index.jsx:230-233 | A neighbour in state `val1` eats a cell in state `val2` when `val1` is 0 and `val2` is the last state, or when `val1 == val2 + 1`. Its meaning on the state range (the cyclic successor) is stated by `CanEatIsSuccessor`. |
| `Rule.PixValue` | src/index.jsx:235-264 | The next state of one cell, written as the source's cascade of eight checks. What it means is stated by `PixValueIsFirstEater` (it equals the reference first-match search) and `PixValueFirstMatch` (own state when nothing eats, otherwise the first eater's state). |
| `Rule.Generation` | src/index.jsx:266-270 | One generation has as many cells as the grid. Cell by cell it is `PixValue` of the previous grid (`GenerationAt`), and it keeps states in range (`GenerationInRange`). |
| `Rule.CellIndex` | src/index.jsx:236 | The row-major index `y*width + x` of an in-range cell lies inside the `width*height` buffer. |
| `Rule.NeighbourIndex` | src/index.jsx:238-261 | The wrapped index of any neighbour lies inside the buffer, so no neighbour read is out of bounds. |
| `Rule.FirstEater` | src/index.jsx:235-264 | Reference first-match search. It returns `None` iff no entry can eat the cell. Otherwise it returns the index of an eater before which no entry can eat. |
| `RuleProperties.CanEatIsSuccessor` | src/index.jsx:230-233 | For states in `[0, n)`, `can_eat(val1, val2)` holds iff `val1 == (val2 + 1) % n`, in both directions. |
| `RuleProperties.PixValueIsFirstEater` | src/index.jsx:235-264 | The source's cascade of eight checks equals the reference search over the offset list E, W, S, N (+ SE, SW, NE, NW in Moore mode). |
| `RuleProperties.PixValueFirstMatch` | src/index.jsx:235-264 | With no eater the cell keeps its own state. Otherwise it takes the state of the first eater in priority order. |
| `RuleProperties.EastWinsTie` | src/index.jsx:238-242 | When both the east and the west neighbour can eat, the east neighbour's state wins. |
| `RuleProperties.PixValueNeverInvents` | src/index.jsx:236-263 | The next state is the cell's own state or the state of one of its neighbours. |
| `RuleProperties.PixValueInRange` | src/index.jsx:236-263 | If every cell is in `[0, n)`, the next state of any cell is in `[0, n)`. |
| `RuleProperties.VonNeumannIgnoresOthers` | src/index.jsx:250-262 | In von Neumann mode, overwriting any cell other than the cell and its four orthogonal neighbours (the diagonals in particular) does not change the result. |
| `RuleProperties.MooreAgreesWhenOrthogonalEats` | src/index.jsx:238-262 | When an orthogonal neighbour eats the cell, Moore and von Neumann modes give the same result. The diagonals are consulted only after all four orthogonal checks fail. |
| `RuleProperties.NeighboursAcrossEdges` | src/index.jsx:218-228 | In every row, west of column 0 is column `width-1` and east of column `width-1` is column 0. In every column, north of row 0 is row `height-1` and south of row `height-1` is row 0. |
| `RuleProperties.GenerationAt` | src/index.jsx:266-270 | Cell `(x, y)` of the next generation is `pix_value(x, y)` of the current grid. |
| `RuleProperties.GenerationInRange` | src/index.jsx:266-270 | A generation keeps every state in `[0, n)`. This is the invariant the frame loop relies on to index the colour tables. |
| `Simulation.Round` | src/index.jsx:192 | `Math.round` gives the nearest integer `r` with `x - 1/2 < r <= x + 1/2` (halves round up). |
| `Simulation.SeedState` | src/index.jsx:192 | A seeded state `round(u * (n-1))`, for a draw `u` in `[0, 1)`, lies in `[0, n-1]`. |
| `Simulation.Seeded` | src/index.jsx:191-194 | The seeded grid has one state per draw, each `SeedState` of its draw, so every state is in `[0, n-1]`. |
| `Simulation.Frame` | src/index.jsx:277-283 | The painted frame has four bytes per cell. Pixel by pixel it holds the table colour of the cell's state and alpha 255 (`FramePixel`). |
| `Simulation.FramePixel` | src/index.jsx:277-283 | Pixel `p` of the painted frame has the red, green and blue table entries of cell `p`'s state and alpha 255. |
| `Simulation.Demon.constructor` | src/index.jsx:22-37 | Default parameters: 16 states, von Neumann, cyclic brightness, frame delay 20, not running, not just initialised, not stopped. Buffers are zero-filled at `width*height` cells and `4*width*height` pixel bytes (allocated at src/index.jsx:304-307, 336-337). |
| `Simulation.Demon.SetColor` | src/index.jsx:157-163 | Writes exactly `offset..offset+3`: red, green and blue from the tables for `value`, then 255. Every other byte is unchanged. |
| `Simulation.Demon.InitializeColormap` | src/index.jsx:165-188 | Three fresh tables of length `num_states`, where entry `i` is the scheme's colour at `i / num_states`. Sets `justInitialized`. |
| `Simulation.Demon.InitializeState` | src/index.jsx:190-198 | Every cell is its seeded state, in `[0, num_states-1]`. The second buffer equals the first. `justInitialized` is set and the colour tables are rebuilt with length `num_states`. |
| `Simulation.Demon.SwapBuffers` | src/index.jsx:200-209 | Exchanges the two buffer handles and nothing else. The buffer invariant is kept. |
| `Simulation.SwapTwiceRestores` | src/index.jsx:200-209 | Swapping twice restores the original assignment of the buffers. |
| `Simulation.Demon.UpdateView` | src/index.jsx:211-273 | The pass writes only the second buffer and leaves the current one unchanged (loop invariant). Afterwards the new current buffer equals the generation of the old one, cell for cell. The new second buffer is the old current buffer. |
| `Simulation.Demon.PaintView` | src/index.jsx:277-283 | The pixel buffer becomes the frame of the current cells through the colour tables. |
| `Simulation.Demon.GoUpdate` | src/index.jsx:275-298 | When `run` or `justInitialized` holds, it paints the old grid, advances exactly one generation and swaps the buffers, so the second buffer holds the old grid. Otherwise both buffers and the pixels are unchanged. Afterwards `justInitialized` is false and `Ready()` is kept. The delay is `frameDelay` when running, 50 when idle, and none when stopped. |
| `Simulation.IdleTicksAfterReset` | src/index.jsx:276-297 | While paused, a reseed followed by two ticks leaves exactly one generation applied to the seeded grid. The pixel buffer still shows the seeded grid, so the second tick painted nothing. |
| `Simulation.Demon.Start` | src/index.jsx:339-340 | Mounting seeds the grid and runs the first tick. The colour tables are fresh and hold the palette colours at `i / num_states`. The pixel buffer shows the seeded grid through them. The current buffer holds one generation of the seeded grid and the second buffer the seeded grid itself. |
| `Simulation.Demon.ChangeNumStates` | src/index.jsx:40-44 | A state count chosen in `[5, 30]` is rounded to an integer in `[5, 30]` and the grid is reseeded. |
| `Simulation.Demon.Stop` | src/index.jsx:63-65 | Unmounting sets `stopped`, after which `GoUpdate` schedules no further tick. |
| `Scenario.SingleSeedGeneration` | src/index.jsx:235-270 | With 4 states, von Neumann mode and a single state-1 cell at (5, 5) on the 640 × 480 grid, one generation turns exactly the seed and its four orthogonal neighbours into state 1. Every other cell stays 0. |

## Left out

- React lifecycle, `render`, canvas and DOM creation, and the dat.gui panel (src/index.jsx:20, 39-55, 59-65, 300-349) are UI glue. Three parts are kept: mounting (`Start`, src/index.jsx:339-340: seed, then the first tick), the state-count callback (`ChangeNumStates`) and unmounting (`Stop`). The colour-scheme callback (src/index.jsx:50-52) amounts to assigning `colormap` and calling `InitializeColormap`.
- The four colour functions (src/index.jsx:67-155) use floating point, `Math.sin` and the chroma-js library. They are the `palette` parameter, which returns bytes. The implicit float-to-byte conversion of the typed arrays is not modelled.
- `Math.random` is a parameter of draws in `[0, 1)`. Its distribution is not modelled.
- `putImageData` (src/index.jsx:284) and `setTimeout` (src/index.jsx:291, 295) are the external renderer and timer. The pixel buffer is the painted output, and the delay is a returned value.
- Each `ArrayBuffer` and its `Uint8Array` view (src/index.jsx:304-307) are one Dafny `array<int>`. The `buffer`/`buffer2` handles are therefore not separate fields. Byte-sized storage is not modelled because states never exceed 29.
- `params.neighborhood` and `params.colormap` are strings in the source and enumerations here. The control panel only offers the listed names, so the fallbacks for other strings (von Neumann, grayscale) are not modelled.
- `frameDelay` is an integer number of milliseconds here. The slider can produce fractions.
- Simulation.Demon.SetColor: requires an in-range `offset` and `value`. JavaScript typed arrays would silently drop out-of-range writes and read missing table entries as `undefined`. Its only caller always stays in range. The unused `max_value` argument is dropped, and the pixel buffer argument is named `pixels`.
- Simulation.Round: works on exact reals. The IEEE double rounding of `Math.random() * (num_states - 1)` is not modelled.
- Simulation.Demon.Ready: treats a state-count change and its reseed as one step. While a slider is being dragged, dat.gui may briefly store a fractional `num_states`; that intermediate state is not modelled.
- Determinism of a generation needs no lemma: `Generation` is a function of the current buffer, the state count and the neighbourhood.
