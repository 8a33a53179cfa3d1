# Life Cell Simulator: a verified model of the simulation core

This project models the core of the Life Cell Simulator, a Python implementation of Conway's Game of Life (`life_simulator.py`). The core has three parts:

- the `LifeSimulator` object, which holds a `rows` x `cols` grid of 0/1 cells, builds all-dead or random grids, counts live neighbours over the hard-edged Moore neighbourhood and computes the next generation into a separate buffer;
- the interactive control state that the text and the graphical front ends keep beside it: the pause flag, the update rate clamped to the configured `[min_speed, max_speed]`, and the reset, clear and speed keys;
- the pause-gated call to `next_generation` in both run loops.

The model has three modules:

- `LifeRules` (`life_rules.dfy`) is the pure specification. A grid is a value of type `seq<seq<int>>`. It defines the neighbour count (`NeighborCount`), Conway's rule (`Rule`), one generation (`Next`) and grid construction (`Created`). Random choices come from an injected bit source `draw: nat -> bool`, where the k-th call to `random.choice` in row-major order is `draw(k)`. Lemmas cover the count bounds, locality, the all-dead fixed point, a lone cell dying, the block still life and the period-2 blinker.
- `Simulation` (`simulation.dfy`) is the `LifeSimulator` class. It has fields `rows`, `cols` and `grid: array2<int>`. `CountNeighbors` is the loop over the eight offsets, proved equal to `NeighborCount`. `NextGeneration` is the nested loop that writes a freshly allocated array and then replaces `grid` with it. It is proved to leave `Cells() == Next(old(Cells()))`. Because the method's frame does not include the old array, the old generation is never written while being read.
- `Control` (`control.dfy`) holds the configuration constants, a pure `Session` state machine (`Apply` for key commands, `Advance` for the gated tick) and the key maps of both front ends. It also holds a `Controller` class with `paused`, `rate` and the shared simulator. Each of its methods is proved to move the object's state exactly as the corresponding pure function does. The two front ends issue the same commands and differ only in the speed step: 1 for text, `speed_increment` = 5 for the GUI. Their keys differ: `=`, `R` and `C` exist only in text mode, and the arrow and keypad keys only in the GUI. The step is a parameter of the speed commands, so one model covers both.

Facts about the code that shape the model:

- `LifeSimulator(0, n)` is accepted and holds an empty grid, so the dimensions are `nat` and there is no error case for them.
- The rate bounds are the fixed `SIMULATION_CONFIG` values (life_simulator.py:37-42).
- `count_neighbors` accepts any coordinates and skips the offsets that fall outside the grid.

## Model

| member | source | states |
|---|---|---|
| `LifeRules.Zeroed` | life_simulator.py:98 | a `rows` x `cols` grid, every cell 0 |
| `LifeRules.Created` | life_simulator.py:84-98 | a `rows` x `cols` grid with every cell in {0,1}; without randomization it is the all-dead grid |
| `LifeRules.EveryBinaryGridCanBeDrawn` | life_simulator.py:93-97 | every 0/1 grid of the right shape is produced by some bit source, so the injected source does not restrict random construction |
| `LifeRules.Rule` | life_simulator.py:133-138 | the new state is 0 or 1, and it is 1 exactly when the count is 3, or the cell is alive and the count is 2 |
| `LifeRules.NextCell` | life_simulator.py:131-138 | the new cell is 0 or 1, and it is 1 exactly when the cell's neighbour count is 3, or the cell is alive and the count is 2 |
| `LifeRules.Next` | life_simulator.py:127-139 | a generation yields a grid of the same dimensions whose cells are all 0 or 1 |
| `LifeRules.NeighborCountUnfolded` | life_simulator.py:110-125 | the count is the sum of the eight offset contributions, each 0 outside the grid |
| `LifeRules.PartialCountRange` | life_simulator.py:120-125 | after k of the offsets the running count lies in [0, k] |
| `LifeRules.NeighborCount` | life_simulator.py:100-125 | on a 0/1 grid the count lies in [0, 8] for every position, and it is 0 for a position two or more rows or columns outside the grid |
| `LifeRules.PartialOutside` | life_simulator.py:120-124 | around a position two or more steps outside the grid every offset is skipped, so every partial count is 0 |
| `LifeRules.CornerCountAtMost3` | life_simulator.py:121-124 | a corner cell has at most 3 live neighbours (no wraparound) |
| `LifeRules.EdgeCountAtMost5` | life_simulator.py:121-124 | a border cell has at most 5 live neighbours |
| `LifeRules.NeighborCountLocal` | life_simulator.py:121-124 | the count depends only on the eight in-grid neighbours, not on the cell itself or anything farther away |
| `LifeRules.NextIsLocal` | life_simulator.py:129-138 | each new cell is decided by the 3 x 3 window of the old grid around it |
| `LifeRules.NextCellCases` | life_simulator.py:133-138 | a live cell survives iff it has 2 or 3 live neighbours; a dead cell is born iff it has exactly 3 |
| `LifeRules.ZeroedPartialCount` | life_simulator.py:120-125 | every partial count around an all-dead grid is 0 |
| `LifeRules.ZeroedIsFixedPoint` | life_simulator.py:127-139 | the next generation of an all-dead grid is the all-dead grid |
| `LifeRules.IsolatedCellDies` | life_simulator.py:127-139 | a grid with one live cell becomes all dead |
| `LifeRules.BlockIsStillLife` | life_simulator.py:127-139 | a 2 x 2 block inside the grid is unchanged by a generation |
| `LifeRules.VerticalBlinkerTurns` | life_simulator.py:127-139 | a vertical blinker away from the edges becomes the horizontal one |
| `LifeRules.HorizontalBlinkerTurns` | life_simulator.py:127-139 | a horizontal blinker away from the edges becomes the vertical one |
| `LifeRules.BlinkerHasPeriodTwo` | life_simulator.py:127-139 | two generations bring a blinker back to itself |
| `Simulation.LifeSimulator.constructor` | life_simulator.py:73-82 | a new simulator keeps the given dimensions and starts from the random grid drawn from the bit source |
| `Simulation.LifeSimulator.CreateGrid` | life_simulator.py:84-98 | returns a fresh `rows` x `cols` array whose contents are `Created(rows, cols, randomize, draw)` |
| `Simulation.LifeSimulator.CountNeighbors` | life_simulator.py:100-125 | the loop over the offsets returns `NeighborCount` of the current grid, a value in [0, 8], for any coordinates |
| `Simulation.LifeSimulator.NextGeneration` | life_simulator.py:127-139 | the grid is replaced by a fresh array equal to `Next` of the old grid; the shape and 0/1 invariant are kept |
| `Control.Faster` | life_simulator.py:188-189 | the rate after a speed-up never exceeds `max_speed`, is either `max_speed` or `rate + step`, is exactly `rate + step` when that is within `max_speed`, and never falls below an in-range rate |
| `Control.Slower` | life_simulator.py:190-191 | the rate after a slow-down is never below `min_speed`, is either `min_speed` or `rate - step`, is exactly `rate - step` when that is at least `min_speed`, and never rises above an in-range rate |
| `Control.SpeedStaysInRange` | life_simulator.py:37-42 | both speed commands keep a rate within [`min_speed`, `max_speed`] for every step |
| `Control.SpeedIdempotentAtBounds` | life_simulator.py:188-191 | speed-up at the maximum and slow-down at the minimum change nothing |
| `Control.SlowerUndoesFaster` | life_simulator.py:188-191 | away from the bounds a slow-down undoes a speed-up of the same step |
| `Control.RepeatedFasterPinsAtMax` | life_simulator.py:274-278 | enough speed-ups in a row pin the rate at `max_speed` |
| `Control.RepeatedSlowerPinsAtMin` | life_simulator.py:279-283 | enough slow-downs in a row pin the rate at `min_speed` |
| `Control.Apply` | life_simulator.py:180-191 | a command keeps the grid's shape; only the pause toggle changes `paused`, only speed commands change the rate, only reset and clear change the grid |
| `Control.ApplyKey` | life_simulator.py:176-191 | no key, or a key without a command, leaves the session unchanged; every key keeps the dimensions; `paused` flips exactly on the pause command |
| `Control.Advance` | life_simulator.py:211-212 | the gated tick leaves a paused session unchanged and otherwise replaces the grid by `Next`, keeping `paused` and the rate |
| `Control.CommandsKeepValid` | life_simulator.py:174-191 | every command and every tick keep the grid 0/1 of its shape and the rate in range |
| `Control.ToggleTwiceRestores` | life_simulator.py:180-181 | toggling pause twice restores the session |
| `Control.ResetAndClearKeepControls` | life_simulator.py:182-185 | reset gives a 0/1 grid of the same shape and clear the all-dead grid; both keep `paused` and the rate |
| `Control.PausedTickIsNoOp` | life_simulator.py:211-212 | ticks while paused leave the session unchanged |
| `Control.ClearedSessionStaysClear` | life_simulator.py:184-185 | after a clear, a tick leaves the grid all dead |
| `Control.TextKeyCommand` | life_simulator.py:174-191 | text keys issue speed commands only with step 1 |
| `Control.GuiKeyCommand` | life_simulator.py:262-285 | GUI keys issue speed commands only with step `speed_increment` |
| `Control.TextBindings` | life_simulator.py:180-191 | the whole text key map: space pauses, r/R resets, c/C clears, + and = speed up by 1, - slows down by 1, and every other character, Escape included, issues no command |
| `Control.GuiBindings` | life_simulator.py:268-285 | the whole GUI key map: space, r and c as in the text front end, up/plus/keypad-plus speed up by 5, down/minus/keypad-minus slow down by 5, Escape and every other key issue no command |
| `Control.FrontEndsDifferOnlyInStep` | life_simulator.py:180-283 | both front ends bind pause, reset and clear to the same commands, and every speed key of the text front end moves by 1 where every speed key of the GUI moves by 5 |
| `Control.TextRound` | life_simulator.py:208-212 | one pass of the text loop keeps the dimensions, is just the gated tick when no key was pressed, and flips `paused` exactly when the key is space |
| `Control.PauseTakesEffectInSameRound` | life_simulator.py:208-212 | the key is read before the gated tick, so pausing already holds back that round's generation and resuming lets it run |
| `Control.Controller.constructor` | life_simulator.py:151-154 | a front end starts running at `default_fps` on the given simulator |
| `Control.Controller.Execute` | life_simulator.py:180-191 | one command changes the object exactly as `Apply` changes the session, keeping the invariant |
| `Control.Controller.HandleTextInput` | life_simulator.py:174-191 | a text key, or no key, changes the state as its command under `TextKeyCommand` does |
| `Control.Controller.HandleGuiKeydown` | life_simulator.py:262-285 | a GUI key changes the state as its command under `GuiKeyCommand` does |
| `Control.Controller.Tick` | life_simulator.py:318-319 | the loop's gated call advances the simulator exactly as `Advance` does, so nothing changes while paused |
| `Control.Controller.TextIteration` | life_simulator.py:208-213 | one pass of the text loop is one key's command followed by the gated tick |

## Left out

- `is_key_pressed` (non-blocking terminal or console reads) is foreign I/O. A pending key is an `Option<char>` parameter, and `None` stands for no key or an empty read.
- Display, the control help text, the `termios` raw mode and `time.sleep(1 / update_rate)` are printing and floating-point timing. The model does state that the rate never drops below 1, so the sleep's divisor is positive.
- The pygame window, drawing, frame clock, `GUISettings.cell_size` and `COLORS` are presentation. `handle_events` is the event loop over pygame's queue; only the effect of one key-down event is modelled. The GUI applies every queued key-down in a frame, while the text loop reads at most one key per pass.
- The `running` flag that Escape and the window's close event clear, and the `KeyboardInterrupt` that Ctrl+C raises, are process lifecycle. Escape is bound to no command.
- `parse_arguments` and `main` are argument parsing and the fallback from the GUI to text mode.
- `random.choice` is replaced by the injected bit source `draw`. Nothing about its distribution is modelled.
- Negative dimensions are not modelled: Python accepts them and builds an empty grid, but here `rows` and `cols` are `nat`.
- The text and GUI front ends each keep their own `paused` and rate (`TextInterface`, `GUISettings`). The model has one `Controller` class that stands for either, parameterised by the key map and step it is driven with.
- pygame's integer key constants become the `GuiKey` datatype: each named key is its own constructor, and `KOther(code)` stands for every other key code. Nothing ties `code` to pygame's numbering, so a `KOther` value is never one of the named keys.
- `key.lower()` is modelled only for the ASCII letters R and C, the only characters whose lower case is `r` or `c`.
