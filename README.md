# Conway's Game of Life engine, modelled in Dafny

This project models the core of a small Game of Life engine written in Rust. The engine has three parts:

- **The world** (`world.dfy`, module `World`). A `width * height` grid is held as a flat row-major buffer of booleans, with cell (x, y) at index `width * y + x`. Reading a cell outside the grid gives "dead", and writing one is ignored. The buffer is a Dafny `class World` over an `array<bool>`. `Grid` is its value at one instant, and `World.View()` takes that snapshot.
- **The game** (`game.dfy`, module `Game`):
  - The B3/S23 rule is a pure function over the eight neighbour offsets (`NextLive`). `Generation` is the whole next grid.
  - `class Game` holds a current world and a scratch world. `Step` fills the scratch world from the current one row by row, then exchanges the two. `StepP` does the same work in bands of rows; each band is computed from the current world alone and installed in band order. Both are proved to yield `Generation` of the previous current world.
- **The RLE reader** (`rle.dfy`, module `Rle`; worked examples in `rle_examples.dfy`, module `RleExamples`). It reads the run-length encoded pattern format:
  - `Split` sorts the lines into one header and the data.
  - `ParseMap` expands `<count><tag>` runs into cells inside a dead margin. `Feed`, `Expand` and `Decode` specify that loop character by character.
  - `FromString` chains the two steps.

Imperative code in the source is imperative here too: the world's methods update the array in place, the game swaps world references, and the loops of `new`, `step`, `step_p`, `split` and `parse_map` are `while`/`for` loops. Each such method is proved against a specification function (`Generation`, `Loaded`, `Header`/`Data`, `Decode`). The properties are then lemmas about those functions.

## Model

| member | source | states |
|---|---|---|
| World.Grid.LiveAt | src/world.rs:24-29 | A cell reads live only inside the grid, and there it is the buffer entry `width*y + x`, which lies inside the buffer |
| World.Grid.Set | src/world.rs:31-36 | Writing (x, y) keeps the dimensions. Cell (x, y) then reads `v` when inside the grid (dead otherwise), and every other cell reads as before |
| World.World.constructor | src/world.rs:11-22 | A new world has `width*height` cells, all dead |
| World.World.IsIn | src/world.rs:47-53 | Some exactly when `0 <= x < width` and `0 <= y < height`; it returns the same coordinates, whose index lies inside the buffer |
| World.World.IsLive | src/world.rs:24-29 | False for every coordinate outside the grid, otherwise `cells[width*y + x]`; the same as `LiveAt` on the snapshot |
| World.World.SetLife | src/world.rs:31-36 | In range, exactly index `width*y + x` becomes `doa`; out of range, nothing changes; the snapshot changes as `Grid.Set` says |
| World.World.SetLives | src/world.rs:38-45 | If the run fits, the buffer is the old prefix, then `doa`, then the old suffix; if it would overflow, nothing changes |
| Game.CountLive | src/game.rs:118-124 | Counting over a list of offsets gives at most one per offset |
| Game.NeighbourCount | src/game.rs:113-124 | The neighbour count lies in 0..8 |
| Game.NextLive | src/game.rs:115-131 | A live cell survives iff it has 2 or 3 live neighbours; a dead cell is born iff it has exactly 3 |
| Game.CountIgnoresCentre | src/game.rs:113-124 | For offsets without (0, 0), changing the centre cell never changes the count |
| Game.NeighbourCountIgnoresCentre | src/game.rs:113-124 | A cell's own value does not enter its neighbour count |
| Game.CountSnoc | src/game.rs:118-124 | Counting one more offset adds exactly that offset's cell to the count |
| Game.NeighbourCountSum | src/game.rs:118-124 | The left-to-right count equals the sum over the eight neighbours |
| Game.CornerNeighbours | src/game.rs:118-124 | Cells outside the grid count as dead, so the top-left corner has at most 3 live neighbours |
| Game.Generation | src/game.rs:93-97 | The next grid has the same dimensions, and each cell inside it is `NextLive` of the old grid at that cell |
| Game.Loaded | src/game.rs:24-28 | Loading `lives` into a `size`-cell buffer: cell i is live iff i is below the length of `lives` and `lives[i]` holds; entries past the buffer are dropped |
| Game.LoadedExample | src/game.rs:133-146 | Six entries loaded into a 4x4 grid: cells (0,0), (1,0) and (0,1) are live, the rest of the first two rows dead, and rows 2 and 3 all dead |
| Game.BandsCover | src/game.rs:43-45 | With `cpu_rows = height/cpu_num + 1`, the `cpu_num` bands reach past the last row, and every row lies in band `y / cpu_rows`, which is one of them |
| Game.BandRows | src/game.rs:56-60 | A band starting at row `height` or later (past the last row) is empty; otherwise it has `cpu_rows` rows or all rows to the bottom |
| Game.ComputeBand | src/game.rs:51-66 | A worker's result has its head, at most `cpu_rows` rows all inside the grid, and exactly the next-generation cells of those rows in row-major order |
| Game.ComputeRow | src/game.rs:61-63 | A row of a worker's result has `width` entries, entry x being the next state of cell (x, y) |
| Game.InstallBand | src/game.rs:77-81 | Installing a band sets the buffer range of its rows to the band's cells and leaves every other cell unchanged |
| Game.InstallRow | src/game.rs:78-80 | Installing one band row sets that row's buffer range and nothing else |
| Game.Game.constructor | src/game.rs:18-38 | The current world holds `Loaded(lives, width*height)`, the scratch world is all dead, and `cpu_rows = height/cpu_num + 1` |
| Game.Game.Lives | src/game.rs:103-106 | Returns `width*height` cells, equal to the current world's cells |
| Game.Game.Swap | src/game.rs:108-110 | The current and scratch worlds exchange places |
| Game.Game.SwapTwice | src/game.rs:201-218 | Two swaps restore both worlds and the current world's cells |
| Game.Game.Step | src/game.rs:88-101 | The new current world is `Generation` of the old one, and the old current world becomes the scratch world, its cells untouched |
| Game.StepRow | src/game.rs:94-96 | Row y of the scratch world becomes the next state of row y of the current world, and every other cell keeps its value |
| Game.Game.StepP | src/game.rs:40-86 | The same outcome as `Step`: the new current world is `Generation` of the old one, and the worlds are exchanged |
| Game.Game.ComputeBands | src/game.rs:43-66 | One band per worker, and worker i's band is band i of the next generation of the current world, headed at `i*cpu_rows` |
| Game.Game.InstallBands | src/game.rs:69-83 | Installing every worker's band in join order leaves the scratch buffer equal to the next generation |
| Game.Game.JoinBand | src/game.rs:71-81 | If the rows above band j are finished, installing band j finishes the rows down to the end of that band |
| Game.Game.BandStep | src/game.rs:71-75 | A non-empty band starts where the bands before it stop, so installing them in order covers the rows from the top |
| Game.Blinker | src/game.rs:148-172 | The horizontal blinker steps to the vertical one, and back |
| Rle.Lines | src/rle.rs:39 | No line contains a line feed, and a non-empty text without line feeds is a single line |
| Rle.Split | src/rle.rs:35-54 | Fails with "lack" iff the header or the data is empty; otherwise it returns the header (the last header line) and the data (all other non-comment lines, joined) |
| Rle.DataAppend | src/rle.rs:39-47 | The data of two runs of lines is their data concatenated, in order |
| Rle.HeaderAppend | src/rle.rs:39-47 | A later header line replaces an earlier one |
| Rle.CommentIgnored | src/rle.rs:40-41 | A `#` line inserted anywhere changes neither the header nor the data |
| Rle.HeaderIsLast | src/rle.rs:42-43 | The header is empty iff no line starts with "x = "; otherwise it is one of the lines, starts with "x = ", is not a comment, and no header line follows it |
| Rle.RunCount | src/rle.rs:125 | An omitted run count means 1 |
| Rle.IsAlive | src/rle.rs:154-156 | Tag `o` stands for a live cell and tag `b` for a dead one |
| Rle.TwelveDead | src/rle.rs:111 | `12b` appends twelve dead cells and advances the row by 12 |
| Rle.TwoLiveOneDead | src/rle.rs:112 | `2ob` appends two live cells and one dead cell and advances the row by 3 |
| Rle.Feed | src/rle.rs:120-144 | One data character only appends cells, and the pending count stays a digit string |
| Rle.Decode | src/rle.rs:90-152 | The decoded pattern has at least `(raw_w + 2m) * (raw_h + 2m)` cells |
| Rle.Advance | src/rle.rs:121-144 | One turn of the decoding loop performs `Feed` on the loop's state |
| Rle.ExpandData | src/rle.rs:117-145 | The character loop, started on the dead margin and stopped at `!`, yields the expansion of the data (`Expanded`) |
| Rle.ParseMap | src/rle.rs:90-152 | The expansion padded with dead cells to `w*h` is exactly `Decode` |
| Rle.FromString | src/rle.rs:20-26 | Fails iff splitting fails (with "lack") or the header does not parse (passing that error on). Otherwise it returns `(w + 2m, h + 2m, Decode(w, h, m, data))`, with at least that many cells |
| Rle.ExpandExtends | src/rle.rs:120-145 | Decoding only appends: cells already decoded never change |
| Rle.DecodePadding | src/rle.rs:147-149 | The result is the expanded cells, then dead cells up to `w*h` |
| Rle.DecodeMargin | src/rle.rs:117 | The first `w*margin + margin` cells are dead, whatever the data |
| Rle.FirstRowColumn | src/rle.rs:117 | The first pattern row starts at row `margin`, column `margin` |
| Rle.ExpandDigits | src/rle.rs:122 | Digits only accumulate into the pending count |
| Rle.Run | src/rle.rs:124-131 | `<n>b` or `<n>o` appends `n` cells of `is_alive(tag)` (one when `n` is omitted) and advances the row by `n` |
| Rle.RowEnd | src/rle.rs:132-142 | For a row of at most `w` cells, `<n>$` pads the row to width `w` and adds `n-1` blank rows, so the next row starts in the same column as the current one |
| Rle.FeedAligned | src/rle.rs:121-144 | No character moves the start of the current row off column `margin`, except a `$` that ends a row longer than `w` cells |
| Rle.ExpandAligned | src/rle.rs:120-145 | Data whose rows all fit the width keeps the current row starting in column `margin` throughout |
| Rle.RowsStartAtMargin | src/rle.rs:117-145 | From the dead margin, with rows no longer than `w` cells, every row starts in column `margin`; after a `$` the next cell lies in that column |
| Rle.OverlongRow | src/rle.rs:134-138 | `5o$` in a 4-wide field gets no padding, so the next row starts in column 1 instead of column 0 |
| Rle.BangEnds | src/rle.rs:123 | Everything after the first `!` is ignored |
| Rle.OtherIgnored | src/rle.rs:143 | A character that is not a digit, `b`, `o`, `$` or `!` is skipped wherever it appears |
| RleExamples.NoMargin | src/rle.rs:160-165 | `"2o$bobo$3bo!"` in a 4x4 field without margin decodes to the test's 16 cells |
| RleExamples.Margin | src/rle.rs:167-176 | The same data with margin 2 decodes to the test's 64 cells |

## Left out

- Threads, `Arc<RwLock<…>>`, `spawn`/`join` and lock poisoning in `step_p`. `StepP` computes the bands one after the other and installs them in the fixed join order. The workers only read the current world, so the result is the same.
- `num_cpus::get()` is the `cpuNum` parameter of the `Game` constructor. The constructor requires it to be at least 1, as the operating system guarantees.
- The `Game` constructor requires `width > 0`, because `lives.chunks(0)` panics in the source.
- Machine integers: `usize` products such as `width * height` and `w * h` are unbounded here. The casts between `usize` and `isize` are also not modelled.
- Rle.RowEnd: promises the column only when the row ended by `$` has at most `w` cells. The source does not reject a longer row: it pads nothing, so later rows shift by the overflow (Rle.OverlongRow shows `5o$` with `w = 4`). Rle.RowsStartAtMargin carries the promise over whole data only under the same condition.
- Rle.RunCount: `usize::from_str` fails on a count too large for `usize`, and the source then uses 1. The model uses the decimal value whatever its size.
- `parse_setting` (src/rle.rs:70-82) is a regular-expression match from the `regex` crate. `FromString` takes it as the function parameter `parseSetting`.
- `from_file` reads a file and calls `from_string`. File I/O is not modelled.
- `get_unchecked` / `get_unchecked_mut`: every index is proved in bounds, so the unchecked access is an ordinary array access here.
- Loops are split into methods of their own: Game.Game.ComputeBands and Game.Game.InstallBands are the spawn loop and the join loop of `step_p`; Game.StepRow, Game.ComputeRow, Game.Game.JoinBand, Game.InstallBand and Game.InstallRow are the bodies of nested loops; Rle.ExpandData is the character loop of `parse_map` and Rle.Advance its body.
- The rule reads a `Grid` snapshot of the current world (`World.View()`). The current world is not written while a generation is computed, so the snapshot is exact.
- src/benchmark.rs, src/main.rs, src/lib.rs and src/standard_error.rs are not part of this model. The error type becomes the `message` string of `Rle.Result`.

## Notes on the source

- `Game::new`, `step` and `step_p` call `set_live`, but `World` defines `set_life` with the same parameters. The model uses `SetLife` for all three.
- `Game::lives` maps each cell through `cell.live`, but the cells are plain booleans. The model returns the cells as they are.
- Band height: every band has `height / cpu_num + 1` rows (src/game.rs:22), not the rounded-up quotient. The model follows the code.
- Input length: `Game::new` does not reject a `lives` vector of the wrong length. It loads the entries that land in the grid, and cells it does not reach stay dead. The model follows the code.
