/** The two render loops of the `info` command. The render calls become a
    trace of abstract commands; the wait on several queues raced against an
    idle timer becomes an input sequence of arrivals, where `IdleTimeout`
    stands for the timer firing before any queue yielded. */
module Render {
  import opened Share

  /** The calls the loops make on the renderer, with their arguments. */
  datatype Command =
    | Reset(rows: int, cols: int)
    | RenderMud(i: int, j: int)
    | RenderGround(i: int, j: int)
    | RenderTree(x: int, y: int)
    | RenderFlower(x: int, y: int)
    | RenderGrass(x: int, y: int)
  {
    predicate IsCell() { RenderMud? || RenderGround? }
    predicate IsSprite() { RenderTree? || RenderFlower? || RenderGrass? }
  }

  /** What one turn of a wait loop observes: a value received from one of
      its queues, or the idle timer firing first. */
  datatype Arrival<T> = Received(item: T) | IdleTimeout

  /** A value received by the snapshot sprite loop, tagged by its queue. */
  datatype SnapshotSprite = TreeItem(tree: Tree) | FlowerItem(flower: Flower) | GrassItem(grass: Grass)

  /** A value received by the event loop, tagged by its queue. */
  datatype LiveEvent = MoveItem(move: SpriteMove) | AddItem(add: SpriteAdd) | DeleteItem(delete: SpriteDelete)

  /** How far the snapshot render loop got: blocked on the tile queue,
      still waiting for sprites, or returned after the idle timeout. */
  datatype InfoPhase = AwaitingTiles | RenderingSprites | Complete

  // ---------------------------------------------------------------------
  // Idle timeout

  /** The position of the first timeout, or |a| when the timer never fired. */
  function FirstTimeout<T>(a: seq<Arrival<T>>): (k: nat)
    ensures k <= |a|
    ensures forall i :: 0 <= i < k ==> a[i].Received?
    ensures k < |a| ==> a[k].IdleTimeout?
  {
    if a == [] || a[0].IdleTimeout? then 0 else 1 + FirstTimeout(a[1..])
  }

  /** The received values of `a`, in order. */
  function ReceivedItems<T>(a: seq<Arrival<T>>): seq<T>
  {
    if a == [] then []
    else
      var last := a[|a| - 1];
      ReceivedItems(a[..|a| - 1]) + (if last.Received? then [last.item] else [])
  }

  lemma {:induction false} ReceivedSnoc<T>(a: seq<Arrival<T>>, k: nat)
    requires k < |a| && a[k].Received?
    ensures ReceivedItems(a[..k + 1]) == ReceivedItems(a[..k]) + [a[k].item]
  {
    assert a[..k + 1][..k] == a[..k];
  }

  /** What a wait loop handles before it stops: the values received before
      the first timeout. */
  function UntilTimeout<T>(a: seq<Arrival<T>>): seq<T>
  {
    ReceivedItems(a[..FirstTimeout(a)])
  }

  lemma {:induction false} ReceivedItemsAt<T>(a: seq<Arrival<T>>)
    requires forall i :: 0 <= i < |a| ==> a[i].Received?
    ensures |ReceivedItems(a)| == |a|
    ensures forall i :: 0 <= i < |a| ==> ReceivedItems(a)[i] == a[i].item
  {
    if a != [] {
      ReceivedItemsAt(a[..|a| - 1]);
    }
  }

  /** A wait loop handles exactly the arrivals before the first timeout,
      one value per arrival, in arrival order. */
  lemma {:induction false} UntilTimeoutAt<T>(a: seq<Arrival<T>>)
    ensures |UntilTimeout(a)| == FirstTimeout(a)
    ensures forall i :: 0 <= i < FirstTimeout(a) ==> UntilTimeout(a)[i] == a[i].item
  {
    ReceivedItemsAt(a[..FirstTimeout(a)]);
  }

  /** Nothing that arrives after the first timeout is handled. */
  lemma {:induction false} TimeoutCutsOff<T>(a: seq<Arrival<T>>, rest: seq<Arrival<T>>)
    requires forall i :: 0 <= i < |a| ==> a[i].Received?
    ensures UntilTimeout(a + [IdleTimeout] + rest) == ReceivedItems(a)
  {
    var all := a + [IdleTimeout] + rest;
    assert all[|a|].IdleTimeout?;
    assert forall i :: 0 <= i < |a| ==> all[i] == a[i];
    assert all[..|a|] == a;
  }

  // ---------------------------------------------------------------------
  // Tiles

  /** The command for the tile at 1-based row `i`, column `j`. */
  function CellCommand(t: Tile, i: int, j: int): Command
  {
    if t.gradient > 0 then RenderMud(i, j) else RenderGround(i, j)
  }

  /** The commands of row `i` (1-based), one per tile, left to right. */
  function RowCommands(row: seq<Tile>, i: int): seq<Command>
  {
    if row == [] then []
    else RowCommands(row[..|row| - 1], i) + [CellCommand(row[|row| - 1], i, |row|)]
  }

  /** The commands of a whole grid, row after row. */
  function GridCommands(grid: TileGrid): seq<Command>
  {
    if grid == [] then []
    else GridCommands(grid[..|grid| - 1]) + RowCommands(grid[|grid| - 1], |grid|)
  }

  /** The number of tiles in `grid`: the sum of its row lengths. */
  function Cells(grid: TileGrid): nat
  {
    if grid == [] then 0 else Cells(grid[..|grid| - 1]) + |grid[|grid| - 1]|
  }

  /** The number of tiles in the rows before row `r` (0-based). */
  function RowStart(grid: TileGrid, r: nat): nat
    requires r <= |grid|
  {
    Cells(grid[..r])
  }

  lemma {:induction false} RowCommandsAt(row: seq<Tile>, i: int)
    ensures |RowCommands(row, i)| == |row|
    ensures forall c :: 0 <= c < |row| ==> RowCommands(row, i)[c] == CellCommand(row[c], i, c + 1)
  {
    if row != [] {
      RowCommandsAt(row[..|row| - 1], i);
    }
  }

  /** Rows are laid out back to back: row `r` starts where row r - 1 ends. */
  lemma {:induction false} RowStartLayout(grid: TileGrid)
    ensures RowStart(grid, 0) == 0
    ensures RowStart(grid, |grid|) == Cells(grid)
    ensures forall r :: 0 <= r < |grid| ==> RowStart(grid, r + 1) == RowStart(grid, r) + |grid[r]|
  {
    assert grid[..|grid|] == grid;
    forall r | 0 <= r < |grid|
      ensures RowStart(grid, r + 1) == RowStart(grid, r) + |grid[r]|
    {
      assert grid[..r + 1][..r] == grid[..r];
    }
  }

  lemma {:induction false} SliceOfFront<T>(a: seq<T>, b: seq<T>, lo: nat, hi: nat)
    requires lo <= hi <= |a|
    ensures (a + b)[lo..hi] == a[lo..hi]
  {
  }

  lemma {:induction false} SliceOfBack<T>(a: seq<T>, b: seq<T>)
    ensures (a + b)[|a|..|a| + |b|] == b
  {
  }

  /** Row-major layout: the commands of row `r` (0-based) are exactly that
      row's commands as row r + 1, at the positions from RowStart(r) on; so
      there is one command per tile and the count is the sum of the row
      lengths. */
  lemma {:induction false} GridCommandsAt(grid: TileGrid)
    ensures |GridCommands(grid)| == Cells(grid)
    ensures forall r :: 0 <= r < |grid| ==>
              RowStart(grid, r) + |grid[r]| <= Cells(grid) &&
              GridCommands(grid)[RowStart(grid, r)..RowStart(grid, r) + |grid[r]|] == RowCommands(grid[r], r + 1)
  {
    GridCommandsLength(grid);
    forall r | 0 <= r < |grid|
      ensures RowStart(grid, r) + |grid[r]| <= Cells(grid)
      ensures GridCommands(grid)[RowStart(grid, r)..RowStart(grid, r) + |grid[r]|] == RowCommands(grid[r], r + 1)
    {
      GridRowAt(grid, r);
    }
  }

  /** Row `r` of the grid: its commands sit at RowStart(r) onwards. */
  lemma {:induction false} GridRowAt(grid: TileGrid, r: nat)
    requires r < |grid|
    ensures |GridCommands(grid)| == Cells(grid)
    ensures RowStart(grid, r) + |grid[r]| <= Cells(grid)
    ensures GridCommands(grid)[RowStart(grid, r)..RowStart(grid, r) + |grid[r]|] == RowCommands(grid[r], r + 1)
    decreases |grid|
  {
    var n := |grid| - 1;
    var init := grid[..n];
    var last := grid[n];
    GridCommandsLength(init);
    RowCommandsAt(last, n + 1);
    var front := GridCommands(init);
    var back := RowCommands(last, n + 1);
    assert GridCommands(grid) == front + back;
    assert Cells(grid) == Cells(init) + |last|;
    if r < n {
      GridRowAt(init, r);
      RowStartOfPrefix(grid, n, r);
      SliceOfFront(front, back, RowStart(init, r), RowStart(init, r) + |init[r]|);
    } else {
      assert grid[..r] == init;
      SliceOfBack(front, back);
    }
  }

  /** One command per tile. */
  lemma {:induction false} GridCommandsLength(grid: TileGrid)
    ensures |GridCommands(grid)| == Cells(grid)
    decreases |grid|
  {
    if grid != [] {
      GridCommandsLength(grid[..|grid| - 1]);
      RowCommandsAt(grid[|grid| - 1], |grid|);
    }
  }

  lemma {:induction false} RowStartOfPrefix(grid: TileGrid, n: nat, r: nat)
    requires r < n <= |grid|
    ensures RowStart(grid, r) == RowStart(grid[..n], r)
    ensures grid[..n][r] == grid[r]
  {
    assert grid[..r] == grid[..n][..r];
  }

  /** The tile at 0-based (r, c) is drawn once, at position RowStart(r) + c,
      as `RenderMud(r + 1, c + 1)` when its gradient is positive and as
      `RenderGround(r + 1, c + 1)` otherwise. */
  lemma {:induction false} GridCellAt(grid: TileGrid, r: nat, c: nat)
    requires r < |grid| && c < |grid[r]|
    ensures RowStart(grid, r) + c < |GridCommands(grid)|
    ensures GridCommands(grid)[RowStart(grid, r) + c] ==
              if grid[r][c].gradient > 0 then RenderMud(r + 1, c + 1) else RenderGround(r + 1, c + 1)
  {
    GridRowAt(grid, r);
    RowCommandsAt(grid[r], r + 1);
    var lo := RowStart(grid, r);
    assert GridCommands(grid)[lo + c] == GridCommands(grid)[lo..lo + |grid[r]|][c];
  }

  /** A grid's trace holds cell draws only. */
  lemma {:induction false} GridCommandsAreCells(grid: TileGrid)
    ensures forall p :: 0 <= p < |GridCommands(grid)| ==> GridCommands(grid)[p].IsCell()
    decreases |grid|
  {
    if grid != [] {
      var n := |grid| - 1;
      GridCommandsAreCells(grid[..n]);
      RowCommandsAt(grid[n], n + 1);
    }
  }

  // ---------------------------------------------------------------------
  // Sprites

  /** The 0-based point of a received sprite, whatever its kind. */
  function PointOf(s: SnapshotSprite): Point
  {
    match s
    case TreeItem(t) => t.point
    case FlowerItem(f) => f.point
    case GrassItem(g) => g.point
  }

  /** The command for one received sprite: its 0-based point moved to the
      1-based stage. */
  function SpriteCommand(s: SnapshotSprite): (c: Command)
    ensures c.IsSprite()
    ensures c.RenderTree? <==> s.TreeItem?
    ensures c.RenderFlower? <==> s.FlowerItem?
    ensures c.RenderGrass? <==> s.GrassItem?
    ensures c.x == PointOf(s).x + 1 && c.y == PointOf(s).y + 1
  {
    match s
    case TreeItem(t) => RenderTree(t.point.x + 1, t.point.y + 1)
    case FlowerItem(f) => RenderFlower(f.point.x + 1, f.point.y + 1)
    case GrassItem(g) => RenderGrass(g.point.x + 1, g.point.y + 1)
  }

  /** The commands for a sequence of received sprites, one each, in order. */
  function SpriteCommands(items: seq<SnapshotSprite>): seq<Command>
  {
    if items == [] then []
    else SpriteCommands(items[..|items| - 1]) + [SpriteCommand(items[|items| - 1])]
  }

  lemma {:induction false} SpriteCommandsAt(items: seq<SnapshotSprite>)
    ensures |SpriteCommands(items)| == |items|
    ensures forall k :: 0 <= k < |items| ==> SpriteCommands(items)[k] == SpriteCommand(items[k])
    ensures forall k :: 0 <= k < |items| ==> SpriteCommands(items)[k].IsSprite()
  {
    if items != [] {
      SpriteCommandsAt(items[..|items| - 1]);
    }
  }

  // ---------------------------------------------------------------------
  // The snapshot render loop

  /** The whole trace of the snapshot render loop: the reset, then, once
      the first grid has been taken from the tile queue, that grid's cells
      and the sprites received before the first timeout. */
  function InfoTrace(rows: int, cols: int, tilesQueue: seq<TileGrid>, arrivals: seq<Arrival<SnapshotSprite>>): seq<Command>
  {
    [Reset(rows, cols)] +
    if tilesQueue == [] then []
    else GridCommands(tilesQueue[0]) + SpriteCommands(UntilTimeout(arrivals))
  }

  /** The layout of the trace once a grid has been taken: the reset, then
      the first grid's cell commands (that grid only), then the k-th
      sprite command drawing the k-th arrival, and nothing from the first
      timeout on. */
  lemma {:induction false} InfoTraceLayout(rows: int, cols: int, tilesQueue: seq<TileGrid>, arrivals: seq<Arrival<SnapshotSprite>>)
    requires tilesQueue != []
    ensures var trace := InfoTrace(rows, cols, tilesQueue, arrivals);
      var cells := Cells(tilesQueue[0]);
      |trace| == 1 + cells + FirstTimeout(arrivals) &&
      trace[0] == Reset(rows, cols) &&
      trace[1..1 + cells] == GridCommands(tilesQueue[0]) &&
      (forall k :: 0 <= k < FirstTimeout(arrivals) ==> trace[1 + cells + k] == SpriteCommand(arrivals[k].item))
  {
    var grid := tilesQueue[0];
    var sprites := SpriteCommands(UntilTimeout(arrivals));
    GridCommandsLength(grid);
    DrawnSpriteAt(arrivals, 0);
    ThreePartLayout(Reset(rows, cols), GridCommands(grid), sprites);
    forall k | 0 <= k < FirstTimeout(arrivals)
      ensures sprites[k] == SpriteCommand(arrivals[k].item)
    {
      DrawnSpriteAt(arrivals, k);
    }
  }

  /** The k-th sprite draw of a loop that stops at the first timeout is
      the draw of the k-th arrival. */
  lemma {:induction false} DrawnSpriteAt(arrivals: seq<Arrival<SnapshotSprite>>, k: nat)
    ensures |SpriteCommands(UntilTimeout(arrivals))| == FirstTimeout(arrivals)
    ensures k < FirstTimeout(arrivals) ==> SpriteCommands(UntilTimeout(arrivals))[k] == SpriteCommand(arrivals[k].item)
  {
    UntilTimeoutAt(arrivals);
    SpriteCommandsAt(UntilTimeout(arrivals));
  }

  lemma {:induction false} ThreePartLayout<T>(x: T, front: seq<T>, back: seq<T>)
    ensures var all := [x] + (front + back);
      |all| == 1 + |front| + |back| && all[0] == x && all[1..1 + |front|] == front &&
      forall k :: 0 <= k < |back| ==> all[1 + |front| + k] == back[k]
  {
  }

  /** A reset followed by cell draws and then sprite draws holds one reset,
      first, and every cell draw before every sprite draw. */
  lemma {:induction false} PartsInOrder(x: Command, front: seq<Command>, back: seq<Command>)
    requires x.Reset?
    requires forall p :: 0 <= p < |front| ==> front[p].IsCell()
    requires forall p :: 0 <= p < |back| ==> back[p].IsSprite()
    ensures var trace := [x] + (front + back);
      trace[0] == x &&
      (forall p :: 0 < p < |trace| ==> !trace[p].Reset?) &&
      (forall p, q :: 0 <= p < |trace| && 0 <= q < |trace| && trace[p].IsCell() && trace[q].IsSprite() ==> p < q)
  {
  }

  /** The order of the trace: a single reset first, and every tile drawn
      before any sprite. */
  lemma {:induction false} TilesBeforeSprites(rows: int, cols: int, tilesQueue: seq<TileGrid>, arrivals: seq<Arrival<SnapshotSprite>>)
    ensures var trace := InfoTrace(rows, cols, tilesQueue, arrivals);
      trace[0] == Reset(rows, cols) &&
      (forall p :: 0 < p < |trace| ==> !trace[p].Reset?) &&
      (forall p, q :: 0 <= p < |trace| && 0 <= q < |trace| && trace[p].IsCell() && trace[q].IsSprite() ==> p < q)
  {
    if tilesQueue != [] {
      GridCommandsAreCells(tilesQueue[0]);
      SpriteCommandsAt(UntilTimeout(arrivals));
      PartsInOrder(Reset(rows, cols), GridCommands(tilesQueue[0]), SpriteCommands(UntilTimeout(arrivals)));
    }
  }

  /** `renderInfoItems`, part 1: the nested loops over the grid's rows and
      columns, 1-based. */
  method RenderTiles(tiles: TileGrid) returns (cmds: seq<Command>)
    ensures cmds == GridCommands(tiles)
  {
    cmds := [];
    var i := 1;
    while i <= |tiles|
      invariant 1 <= i <= |tiles| + 1
      invariant cmds == GridCommands(tiles[..i - 1])
    {
      var tilesRow := tiles[i - 1];
      var j := 1;
      while j <= |tilesRow|
        invariant 1 <= j <= |tilesRow| + 1
        invariant cmds == GridCommands(tiles[..i - 1]) + RowCommands(tilesRow[..j - 1], i)
      {
        var t := tilesRow[j - 1];
        if t.gradient > 0 {
          cmds := cmds + [RenderMud(i, j)];
        } else {
          cmds := cmds + [RenderGround(i, j)];
        }
        assert tilesRow[..j][..j - 1] == tilesRow[..j - 1];
        j := j + 1;
      }
      assert tilesRow[..j - 1] == tilesRow;
      assert tiles[..i][..i - 1] == tiles[..i - 1];
      i := i + 1;
    }
    assert tiles[..i - 1] == tiles;
  }

  /** One case of the sprite `select`: the received sprite's point, 0-based,
      drawn on the 1-based stage. */
  method RenderSprite(s: SnapshotSprite) returns (c: Command)
    ensures c == SpriteCommand(s)
    ensures c.IsSprite()
    ensures c.RenderTree? <==> s.TreeItem?
    ensures c.RenderFlower? <==> s.FlowerItem?
    ensures c.RenderGrass? <==> s.GrassItem?
    ensures c.x == PointOf(s).x + 1 && c.y == PointOf(s).y + 1
  {
    match s {
      case TreeItem(tree) =>
        var p := tree.point;
        c := RenderTree(p.x + 1, p.y + 1);
      case FlowerItem(flower) =>
        var p := flower.point;
        c := RenderFlower(p.x + 1, p.y + 1);
      case GrassItem(grass) =>
        var p := grass.point;
        c := RenderGrass(p.x + 1, p.y + 1);
    }
  }

  /** `renderInfoItems`, part 2: draw each received sprite at its point
      plus one until the idle timeout. `timedOut` is false when the input
      ran out before the timer fired. */
  method RenderSprites(arrivals: seq<Arrival<SnapshotSprite>>) returns (cmds: seq<Command>, timedOut: bool)
    ensures cmds == SpriteCommands(UntilTimeout(arrivals))
    ensures timedOut <==> FirstTimeout(arrivals) < |arrivals|
  {
    cmds := [];
    var k := 0;
    while k < |arrivals| && arrivals[k].Received?
      invariant k <= FirstTimeout(arrivals)
      invariant cmds == SpriteCommands(ReceivedItems(arrivals[..k]))
    {
      var c := RenderSprite(arrivals[k].item);
      ReceivedSnoc(arrivals, k);
      cmds := cmds + [c];
      k := k + 1;
    }
    // the loop left at the timeout, or with the input used up
    assert k == FirstTimeout(arrivals);
    timedOut := k < |arrivals|;
  }

  /** `renderInfoItems`: reset, take one grid and draw it row-major, then
      draw each received sprite until the idle timeout. With an empty tile
      queue the receive never completes and the trace is the reset alone. */
  method RenderInfoItems(rows: int, cols: int, tilesQueue: seq<TileGrid>, arrivals: seq<Arrival<SnapshotSprite>>)
    returns (trace: seq<Command>, phase: InfoPhase)
    ensures trace == InfoTrace(rows, cols, tilesQueue, arrivals)
    ensures phase == AwaitingTiles <==> tilesQueue == []
    ensures phase == AwaitingTiles ==> trace == [Reset(rows, cols)]
    ensures phase == Complete <==> tilesQueue != [] && FirstTimeout(arrivals) < |arrivals|
  {
    trace := [Reset(rows, cols)];
    if tilesQueue == [] {
      return trace, AwaitingTiles;
    }
    var cells := RenderTiles(tilesQueue[0]);
    var sprites, timedOut := RenderSprites(arrivals);
    trace := trace + cells + sprites;
    phase := if timedOut then Complete else RenderingSprites;
  }

  // ---------------------------------------------------------------------
  // The event render loop

  /** `renderEventItems`: forward each received event to the log until the
      idle timeout. It makes no render call at all. `finished` is false
      when the input ran out before the timer fired. */
  method RenderEventItems(arrivals: seq<Arrival<LiveEvent>>) returns (logged: seq<LiveEvent>, finished: bool)
    ensures logged == UntilTimeout(arrivals)
    ensures finished <==> FirstTimeout(arrivals) < |arrivals|
  {
    logged := [];
    var k := 0;
    while k < |arrivals| && arrivals[k].Received?
      invariant k <= FirstTimeout(arrivals)
      invariant logged == ReceivedItems(arrivals[..k])
    {
      ReceivedSnoc(arrivals, k);
      logged := logged + [arrivals[k].item];
      k := k + 1;
    }
    assert k == FirstTimeout(arrivals);
    finished := k < |arrivals|;
  }

}
