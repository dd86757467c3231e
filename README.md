# wonder `info` command: dispatch and render model

This project models the core of the `wonder info` command
(`cmd/wonder/command/info.go`), a terminal client of the wonder world
simulator. The command reads two response streams from the server. The
snapshot stream delivers the tile grid, trees, flowers and grass, in any
order, ending with a `done` envelope. The subscription stream delivers sprite `move`, `add` and
`delete` events and never ends. Each stream has a dispatcher goroutine. It
switches on the envelope's `Type`, decodes the `Payload` and pushes the value
onto a per-kind channel. Two render goroutines drain those channels:

- The snapshot renderer resets the stage, takes one tile grid, draws it cell by
  cell, then draws sprites until 3 seconds pass with nothing received.
- The event renderer logs events until 10 seconds pass with nothing received.

The model is written in Dafny in four modules:

- `Share` (`share.dfy`) holds the data: envelopes, the discriminator
  constants, payloads as byte sequences, tiles, points, the three sprite kinds
  and the three event kinds.
- `Dispatch` (`dispatch.dfy`) holds the two dispatchers. Each is a class whose
  `seq` fields are the per-kind channels, seen as the sequence of everything
  ever pushed onto them. A `while` loop over the input envelopes calls `Route`,
  one call per `switch`. The specification function `Routed(s, kind, decode)`
  is the in-order filter of `s` by kind, each payload decoded. `FirstDone`
  finds where the snapshot stream stops, and `SnapshotPrefix` is the part
  before it. The decoders are total function values (`Payload -> T`). The
  source discards `json.Unmarshal`'s error and pushes whatever value it got, so
  a total decoder routes exactly as the source does.
- `Render` (`render.dfy`) holds the two render loops. Render calls become a
  trace of `Command` values (`Reset`, `RenderMud`, `RenderGround`,
  `RenderTree`, `RenderFlower`, `RenderGrass`). The wait on several channels
  raced against a timer becomes an input sequence of `Arrival`s: either
  `Received(value)` or `IdleTimeout`, which stands for the timer firing first.
  Specification functions:
  - `CellCommand`, `RowCommands`, `GridCommands`: the cell draws of a grid.
  - `Cells`: the tile count.
  - `RowStart`: where each row's draws begin.
  - `SpriteCommand`, `SpriteCommands`: the sprite draws.
  - `FirstTimeout`, `UntilTimeout`: what a loop handles before its timer fires.
  - `InfoTrace`: the whole snapshot trace.
- `InfoCommand` (`command.dfy`) holds the exit status of `Run`, one lemma
  linking the dispatcher to the renderer, and the concrete scenarios.

Choices the model makes where a reader of the code might expect otherwise:

- A payload that fails to decode is still pushed, as the decoder's zero or
  partial value, because every `json.Unmarshal` error is discarded.
- Rows of the tile grid may differ in length, because each row's loop bound is
  that row's own `len`.
- A snapshot stream of a tree followed by `done` draws only the reset. The
  renderer waits on the tile channel with no timeout before it looks at
  sprites, so without a tile envelope it never reaches the sprites
  (`TreeThenDoneScenario`).
- If the input runs out before `done` or a timeout, the model reports that the
  loop has not finished (`finished`/`timedOut` is false, phase
  `RenderingSprites` or `AwaitingTiles`). It does not treat end of input as
  `done`.

The package `share` is not part of this model. The model assumes of it:

- The discriminator values (`InfoItemTypeTile` and the rest, and the three
  event types) are the distinct strings `tile`, `tree`, `flower`, `grass`,
  `done`, `move`, `add` and `delete`. The model only compares them, so any
  distinct values route the same way.
- `Tile.Gradient` is an integer.
- `GetPoint()` returns the sprite's own `point` field.
- A move event carries an id and a point, an add event an id, a sprite name
  and a point, and a delete event an id.

## Model

| member | source | states |
|---|---|---|
| `Dispatch.FirstDone` | cmd/wonder/command/info.go:151-154 | the result is the position of the first `done` envelope (none before it, the one at it is `done`), or the length when there is none |
| `Dispatch.RoutedAppend` | cmd/wonder/command/info.go:113-157 | routing a concatenation is routing each part, in order: the queues only grow, at the end |
| `Dispatch.RoutedPosition` | cmd/wonder/command/info.go:122-149 | every envelope of a kind puts its decoded payload, whatever it is, into that kind's queue, at the place counted by same-kind envelopes before it |
| `Dispatch.RoutedOrder` | cmd/wonder/command/info.go:122-149 | an earlier envelope of a kind takes an earlier place in that kind's queue (FIFO per kind) |
| `Dispatch.RoutedComplete` | cmd/wonder/command/info.go:122-155 | every entry of a kind's queue is the decoded payload of one envelope of that kind at that place; nothing else enters the queue |
| `Dispatch.DoneCutsOff` | cmd/wonder/command/info.go:151-154 | when envelopes without `done` are followed by `done`, the routed part is exactly them: nothing after the first `done` is routed |
| `Dispatch.SnapshotDispatcher.constructor` | cmd/wonder/command/info.go:76-79 | the four snapshot queues start empty |
| `Dispatch.SnapshotDispatcher.Route` | cmd/wonder/command/info.go:117-155 | `tile`/`tree`/`flower`/`grass` append exactly one decoded value to their own queue and leave the other three unchanged; `done` asks to stop and changes nothing; any other kind changes nothing |
| `Dispatch.SnapshotDispatcher.ReceiveInfoItems` | cmd/wonder/command/info.go:106-158 | each queue grows by the in-order, by-kind filter of the envelopes strictly before the first `done`; the loop returns exactly when a `done` was present |
| `Dispatch.SnapshotDispatcher.Step` | cmd/wonder/command/info.go:114-155 | one turn of the receive loop: a `done` envelope stops it with the queues unchanged; any other envelope extends each queue from the filter of the envelopes before it to the filter including it |
| `Dispatch.EventDispatcher.constructor` | cmd/wonder/command/info.go:92-94 | the three event queues start empty |
| `Dispatch.EventDispatcher.Route` | cmd/wonder/command/info.go:168-195 | `move`/`add`/`delete` append exactly one decoded value to their own queue and leave the others unchanged; any other kind changes nothing |
| `Dispatch.EventDispatcher.ReceiveEventItems` | cmd/wonder/command/info.go:160-199 | with no terminal kind, each queue grows by the in-order, by-kind filter of the whole input |
| `Render.FirstTimeout` | cmd/wonder/command/info.go:243-245 | the result is the position of the first timeout (everything before it was received) or the length when the timer never fired |
| `Render.ReceivedItemsAt` | cmd/wonder/command/info.go:229-241 | with no timeout among them, the received values are the arrivals' values one for one, in order |
| `Render.UntilTimeoutAt` | cmd/wonder/command/info.go:258-271 | a wait loop handles exactly the arrivals before the first timeout, one value each, in arrival order |
| `Render.TimeoutCutsOff` | cmd/wonder/command/info.go:243-245 | nothing arriving after the first timeout is handled, whatever it is |
| `Render.RowCommandsAt` | cmd/wonder/command/info.go:217-224 | row i gets one command per tile, the c-th (0-based) at 1-based column c + 1 |
| `Render.RowStartLayout` | cmd/wonder/command/info.go:215-217 | the first row starts at 0, each next row starts where the previous one ended, the last ends at the tile count |
| `Render.GridCommandsAt` | cmd/wonder/command/info.go:215-225 | row-major layout: one command per tile, the count equal to the sum of the row lengths, and the commands of 0-based row r are exactly that row's commands as row r + 1, placed right after the rows before it |
| `Render.GridRowAt` | cmd/wonder/command/info.go:215-225 | the same layout for one given row r: its commands fit within the grid's and occupy the positions from the tile count of the rows before it |
| `Render.GridCellAt` | cmd/wonder/command/info.go:217-223 | the tile at 0-based (r, c) is drawn at its row-major position as `RenderMud(r+1, c+1)` iff its gradient is positive, otherwise as `RenderGround(r+1, c+1)` |
| `Render.GridCommandsAreCells` | cmd/wonder/command/info.go:215-225 | drawing a grid makes cell draws only (mud or ground) |
| `Render.SpriteCommandsAt` | cmd/wonder/command/info.go:231-240 | each received tree/flower/grass gives one draw of its own kind at (X+1, Y+1), in arrival order |
| `Render.DrawnSpriteAt` | cmd/wonder/command/info.go:229-246 | the sprite loop draws as many sprites as arrived before the first timeout, the k-th draw being that of the k-th arrival |
| `Render.SpriteCommand` | cmd/wonder/command/info.go:231-240 | a received sprite gives a sprite draw of its own kind (tree iff tree, flower iff flower, grass iff grass) at its 0-based point plus one in each coordinate |
| `Render.RenderSprite` | cmd/wonder/command/info.go:231-240 | one `select` case emits that sprite's command: a draw of the received sprite's own kind, at its 0-based point plus one in each coordinate |
| `Render.InfoTraceLayout` | cmd/wonder/command/info.go:210-246 | after a grid is taken: the reset to (rows, cols), then the first grid's cell commands only, then the k-th sprite draw for the k-th arrival, with length 1 + tiles + arrivals before the first timeout |
| `Render.TilesBeforeSprites` | cmd/wonder/command/info.go:210-240 | the trace starts with the only reset, and every tile draw precedes every sprite draw |
| `Render.RenderTiles` | cmd/wonder/command/info.go:214-226 | the nested 1-based row/column loops emit exactly the grid's cell commands |
| `Render.RenderSprites` | cmd/wonder/command/info.go:229-247 | the sprite loop emits the draws of the sprites received before the first timeout and reports whether the timer fired |
| `Render.RenderInfoItems` | cmd/wonder/command/info.go:201-248 | the trace is the snapshot trace; with an empty tile queue it is the reset alone and the loop stays awaiting tiles; it completes iff a grid was taken and the timer fired |
| `Render.RenderEventItems` | cmd/wonder/command/info.go:250-274 | logs exactly the events received before the first timeout, makes no render call, and finishes iff the timer fired |
| `InfoCommand.RunOutcomeOf` | cmd/wonder/command/info.go:47-103 | exit 1 iff a setup step failed; exit 0 iff setup succeeded and both render loops finished; otherwise waiting forever |
| `Dispatch.RoutedNone` | cmd/wonder/command/info.go:122-155 | a stream with no envelope of a kind leaves that kind's queue empty |
| `InfoCommand.DrawnGridIsFirstTile` | cmd/wonder/command/info.go:122-225 | the first `tile` envelope before `done`, decoded, heads the tile queue; the trace draws exactly that grid's cells after the reset and, with the sprite draws, has length 1 + its tile count + the arrivals before the first timeout, so no later tile envelope is drawn |
| `InfoCommand.FlatTileScenario` | cmd/wonder/command/info.go:215-225 | a 1 x 1 grid of gradient 0 then an idle timeout gives exactly reset and `RenderGround(1, 1)` |
| `InfoCommand.TreeScenario` | cmd/wonder/command/info.go:231-234 | a tree at (2, 3) is drawn as `RenderTree(3, 4)` right after the grid |
| `InfoCommand.TreeThenDoneScenario` | cmd/wonder/command/info.go:130-154 | a tree then `done` routes one tree and no grid, so the snapshot trace is the reset alone |
| `InfoCommand.MalformedMoveScenario` | cmd/wonder/command/info.go:175-180 | a `move` envelope is pushed whatever its payload, and the envelopes after it are still routed |
| `InfoCommand.SilentEventsScenario` | cmd/wonder/command/info.go:258-271 | an event loop whose timer fires first logs nothing |

## Left out

- Goroutines, channel capacities (the 128-slot buffers), backpressure, the
  `select` race and the `sync.WaitGroup` barrier in `Run` are concurrency.
  `RunOutcomeOf` takes the two loops' outcomes as inputs instead.
- The render loops take their arrivals as an input trace. The model does not
  prove that those arrivals are drawn from the dispatcher queues in per-kind
  order. Which ready channel the `select` serves is a scheduling choice.
- The 3-second and 10-second timers are real time. Each firing is an
  `IdleTimeout` token.
- `encoding/json` decoding is a foreign library. It is a total decoder
  function passed in by the caller.
- The network client (`ClientFromConfig`, `Info`, `Subscribe`) is I/O. Its
  failures are the booleans of `Setup`.
- The renderer's own drawing (`render.TermRender`) is not part of this model.
  The loops emit abstract commands.
- The `Ui.Output` log strings, flag parsing and `Help`/`Synopsis` text are
  left out. The event loop's log is the list of events it received.
- The `init` that reads `ROW`/`COL` from the environment is left out. The two
  values are parameters of the renderer.
- The package `share` is not part of this model. The assumptions made about
  it are listed above.
- The unused `tiles`/`trees`/`flowers`/`grass` fields of `InfoCommand` are
  left out.
- `Render.SpriteCommand`: coordinates are unbounded integers. The model does
  not capture Go's 64-bit wrap-around of `p.X + 1` and `p.Y + 1` at the
  largest `int`.
- `Render.RenderSprite`: the same `+ 1` on unbounded integers, without the
  64-bit wrap-around.
- `Render.SpriteCommandsAt`: inherits the unbounded `+ 1` of `SpriteCommand`.
