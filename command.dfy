/** The `info` command as a whole: how its exit status follows from the
    setup steps and the two render loops, and how the dispatchers feed the
    render loops on concrete streams. */
module InfoCommand {
  import opened Share
  import opened Dispatch
  import opened Render

  /** The outcome of each setup step of `Run`, in the order they happen:
      flag parsing, client creation, the info request, the subscription. */
  datatype Setup = Setup(flagsParsed: bool, clientCreated: bool, infoOpened: bool, subscribed: bool)
  {
    predicate Ready() { flagsParsed && clientCreated && infoOpened && subscribed }
  }

  /** What `Run` comes to: an exit status, or waiting forever on the
      completion of the two render loops. */
  datatype RunOutcome = Exited(status: int) | Waiting

  /** `Run`: a failed setup step returns 1 at once; otherwise the command
      waits until both render loops have finished and then returns 0. */
  function RunOutcomeOf(setup: Setup, snapshot: InfoPhase, eventsFinished: bool): (r: RunOutcome)
    ensures r == Exited(1) <==> !setup.Ready()
    ensures r == Exited(0) <==> setup.Ready() && snapshot == Complete && eventsFinished
    ensures r == Waiting <==> setup.Ready() && (snapshot != Complete || !eventsFinished)
  {
    if !setup.flagsParsed then Exited(1)
    else if !setup.clientCreated then Exited(1)
    else if !setup.infoOpened then Exited(1)
    else if !setup.subscribed then Exited(1)
    else if snapshot == Complete && eventsFinished then Exited(0)
    else Waiting
  }

  /** The grid the snapshot loop draws is the first tile envelope before
      `done`, decoded; any later tile envelope is never drawn. */
  lemma {:induction false} DrawnGridIsFirstTile(s: seq<Envelope>, i: nat, dec: SnapshotDecoders,
                             rows: int, cols: int, arrivals: seq<Arrival<SnapshotSprite>>)
    requires i < FirstDone(s) && s[i].kind == TileKind
    requires forall k :: 0 <= k < i ==> s[k].kind != TileKind
    ensures var grid := dec.tiles(s[i].payload);
      var trace := InfoTrace(rows, cols, Routed(SnapshotPrefix(s), TileKind, dec.tiles), arrivals);
      |trace| == 1 + Cells(grid) + FirstTimeout(arrivals) && trace[1..1 + Cells(grid)] == GridCommands(grid)
    ensures var tiles := Routed(SnapshotPrefix(s), TileKind, dec.tiles);
      |tiles| > 0 && tiles[0] == dec.tiles(s[i].payload)
  {
    var prefix := SnapshotPrefix(s);
    assert prefix[..i] == s[..i];
    RoutedNone(prefix[..i], TileKind, dec.tiles);
    RoutedPosition(prefix, i, TileKind, dec.tiles);
    InfoTraceLayout(rows, cols, Routed(prefix, TileKind, dec.tiles), arrivals);
  }

  /** A 1 x 1 flat grid and an idle sprite queue: one ground draw at (1, 1)
      and no mud. */
  lemma {:induction false} FlatTileScenario(rows: int, cols: int)
    ensures InfoTrace(rows, cols, [[[Tile(0)]]], [IdleTimeout]) == [Reset(rows, cols), RenderGround(1, 1)]
  {
  }

  /** A tree at 0-based (2, 3) is drawn at (3, 4), after the single
      grid's cells. */
  lemma {:induction false} TreeScenario(rows: int, cols: int, grid: TileGrid)
    ensures var trace := InfoTrace(rows, cols, [grid], [Received(TreeItem(Tree(Point(2, 3)))), IdleTimeout]);
      |trace| == 2 + Cells(grid) && trace[1 + Cells(grid)] == RenderTree(3, 4)
  {
    InfoTraceLayout(rows, cols, [grid], [Received(TreeItem(Tree(Point(2, 3)))), IdleTimeout]);
  }

  /** A snapshot stream of a tree and then `done` routes the one tree and no
      grid; the snapshot loop then never gets past the tile queue, so the
      tree is never drawn. */
  lemma {:induction false} TreeThenDoneScenario(p: Payload, q: Payload, rest: seq<Envelope>, dec: SnapshotDecoders,
                             rows: int, cols: int, arrivals: seq<Arrival<SnapshotSprite>>)
    ensures var s := [Envelope(TreeKind, p), Envelope(DoneKind, q)] + rest;
      var tiles := Routed(SnapshotPrefix(s), TileKind, dec.tiles);
      Routed(SnapshotPrefix(s), TreeKind, dec.tree) == [dec.tree(p)] &&
      tiles == [] &&
      InfoTrace(rows, cols, tiles, arrivals) == [Reset(rows, cols)]
  {
    var s := [Envelope(TreeKind, p), Envelope(DoneKind, q)] + rest;
    assert s == [Envelope(TreeKind, p)] + [Envelope(DoneKind, q)] + rest;
    DoneCutsOff([Envelope(TreeKind, p)], Envelope(DoneKind, q), rest);
    assert [Envelope(TreeKind, p)][..0] == [];
  }

  /** A malformed `move` payload still reaches the move queue, and
      the envelopes after it are still routed. */
  lemma {:induction false} MalformedMoveScenario(bad: Payload, rest: seq<Envelope>, dec: EventDecoders)
    ensures Routed([Envelope(MoveKind, bad)] + rest, MoveKind, dec.move) ==
            [dec.move(bad)] + Routed(rest, MoveKind, dec.move)
  {
    RoutedAppend([Envelope(MoveKind, bad)], rest, MoveKind, dec.move);
    assert [Envelope(MoveKind, bad)][..0] == [];
  }

  /** An event stream that stays silent: the loop times out having logged
      nothing. */
  lemma {:induction false} SilentEventsScenario(rest: seq<Arrival<LiveEvent>>)
    ensures UntilTimeout([IdleTimeout] + rest) == []
  {
  }
}
