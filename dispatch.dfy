/** The two dispatchers of the `info` command. Each reads envelopes off its
    response stream, decodes the payload by the envelope's discriminator and
    pushes the value onto the queue of that kind. The snapshot stream ends
    at its first `done` envelope; the event stream never ends. */
module Dispatch {
  import opened Share

  /** The payload decoders. A decoder is total: a payload that does not
      decode still yields a value (whatever the decoder left in it), and that
      value is pushed all the same. */
  datatype SnapshotDecoders = SnapshotDecoders(
    tiles: Payload -> TileGrid,
    tree: Payload -> Tree,
    flower: Payload -> Flower,
    grass: Payload -> Grass)

  datatype EventDecoders = EventDecoders(
    move: Payload -> SpriteMove,
    add: Payload -> SpriteAdd,
    delete: Payload -> SpriteDelete)

  /** The in-order filter of `s` by `kind`, each payload decoded: what the
      queue for `kind` receives from the envelopes `s`. */
  function Routed<T>(s: seq<Envelope>, kind: Kind, decode: Payload -> T): seq<T>
  {
    if s == [] then []
    else
      var last := s[|s| - 1];
      Routed(s[..|s| - 1], kind, decode) + (if last.kind == kind then [decode(last.payload)] else [])
  }

  /** The place in the queue for `kind` that envelope `s[i]` takes: the
      number of envelopes of that kind before it. */
  function QueueIndex<T>(s: seq<Envelope>, i: nat, kind: Kind, decode: Payload -> T): nat
    requires i <= |s|
  {
    |Routed(s[..i], kind, decode)|
  }

  /** The position of the first `done` envelope, or |s| when there is none. */
  function FirstDone(s: seq<Envelope>): (k: nat)
    ensures k <= |s|
    ensures forall i :: 0 <= i < k ==> s[i].kind != DoneKind
    ensures k < |s| ==> s[k].kind == DoneKind
  {
    if s == [] || s[0].kind == DoneKind then 0 else 1 + FirstDone(s[1..])
  }

  /** The envelopes the snapshot dispatcher routes: those strictly before the
      first `done`. */
  function SnapshotPrefix(s: seq<Envelope>): seq<Envelope>
  {
    s[..FirstDone(s)]
  }

  lemma {:induction false} RoutedAppend<T>(s: seq<Envelope>, t: seq<Envelope>, kind: Kind, decode: Payload -> T)
    ensures Routed(s + t, kind, decode) == Routed(s, kind, decode) + Routed(t, kind, decode)
    decreases |t|
  {
    if t == [] {
      assert s + t == s;
    } else {
      var t' := t[..|t| - 1];
      assert (s + t)[..|s + t| - 1] == s + t';
      assert (s + t)[|s + t| - 1] == t[|t| - 1];
      RoutedAppend(s, t', kind, decode);
    }
  }

  /** Routing one more envelope extends the queue of its own kind only. */
  lemma {:induction false} RoutedSnoc<T>(s: seq<Envelope>, i: nat, kind: Kind, decode: Payload -> T)
    requires i < |s|
    ensures Routed(s[..i + 1], kind, decode) ==
            Routed(s[..i], kind, decode) + (if s[i].kind == kind then [decode(s[i].payload)] else [])
  {
    assert s[..i + 1][..i] == s[..i];
  }

  /** A stream with no envelope of `kind` leaves that kind's queue empty. */
  lemma {:induction false} RoutedNone<T>(s: seq<Envelope>, kind: Kind, decode: Payload -> T)
    requires forall k :: 0 <= k < |s| ==> s[k].kind != kind
    ensures Routed(s, kind, decode) == []
  {
    if s != [] {
      RoutedNone(s[..|s| - 1], kind, decode);
    }
  }

  /** Every envelope of `kind` lands in that kind's queue, at the position
      given by the number of same-kind envelopes before it, whatever its
      payload. */
  lemma {:induction false} RoutedPosition<T>(s: seq<Envelope>, i: nat, kind: Kind, decode: Payload -> T)
    requires i < |s| && s[i].kind == kind
    ensures QueueIndex(s, i, kind, decode) < |Routed(s, kind, decode)|
    ensures Routed(s, kind, decode)[QueueIndex(s, i, kind, decode)] == decode(s[i].payload)
  {
    assert s == s[..i] + [s[i]] + s[i + 1..];
    RoutedAppend(s[..i], [s[i]], kind, decode);
    RoutedAppend(s[..i] + [s[i]], s[i + 1..], kind, decode);
    assert Routed([s[i]], kind, decode) == [decode(s[i].payload)] by {
      assert [s[i]][..0] == [];
    }
  }

  /** Order is preserved within a kind: an earlier envelope of `kind` takes
      an earlier place in that kind's queue. */
  lemma {:induction false} RoutedOrder<T>(s: seq<Envelope>, i: nat, j: nat, kind: Kind, decode: Payload -> T)
    requires i < j < |s| && s[i].kind == kind && s[j].kind == kind
    ensures QueueIndex(s, i, kind, decode) < QueueIndex(s, j, kind, decode)
  {
    assert s[..j] == s[..i] + s[i..j];
    RoutedAppend(s[..i], s[i..j], kind, decode);
    RoutedPosition(s[i..j], 0, kind, decode);
  }

  /** Nothing else reaches the queue: each place in the queue for `kind` is
      taken by the decoded payload of one envelope of that kind. */
  lemma {:induction false} RoutedComplete<T>(s: seq<Envelope>, m: nat, kind: Kind, decode: Payload -> T)
    requires m < |Routed(s, kind, decode)|
    ensures exists i :: 0 <= i < |s| && s[i].kind == kind && QueueIndex(s, i, kind, decode) == m
                        && Routed(s, kind, decode)[m] == decode(s[i].payload)
    decreases |s|
  {
    var n := |s| - 1;
    var init := s[..n];
    if m < |Routed(init, kind, decode)| {
      RoutedComplete(init, m, kind, decode);
      var i :| 0 <= i < |init| && init[i].kind == kind && QueueIndex(init, i, kind, decode) == m
               && Routed(init, kind, decode)[m] == decode(init[i].payload);
      assert init[..i] == s[..i];
    } else {
      assert s[..n] == init;
      assert QueueIndex(s, n, kind, decode) == m;
    }
  }

  /** Envelopes after the first `done` are never routed, whatever they are. */
  lemma {:induction false} DoneCutsOff(s: seq<Envelope>, done: Envelope, rest: seq<Envelope>)
    requires forall i :: 0 <= i < |s| ==> s[i].kind != DoneKind
    requires done.kind == DoneKind
    ensures SnapshotPrefix(s + [done] + rest) == s
  {
    var all := s + [done] + rest;
    assert all[|s|] == done;
    assert forall i :: 0 <= i < |s| ==> all[i] == s[i];
    assert all[..|s|] == s;
  }

  /** The snapshot queues: the channels `tilesCh`, `treeCh`, `flowerCh`
      and `grassCh`, as the sequence of everything pushed onto each. */
  class SnapshotDispatcher {
    var tiles: seq<TileGrid>
    var trees: seq<Tree>
    var flowers: seq<Flower>
    var grass: seq<Grass>

    constructor ()
      ensures tiles == [] && trees == [] && flowers == [] && grass == []
    {
      tiles, trees, flowers, grass := [], [], [], [];
    }

    /** The switch on one envelope's discriminator: a known sprite or tile
        kind pushes its decoded payload onto its own queue only; `done`
        asks the loop to stop; any other kind changes nothing. */
    method Route(e: Envelope, dec: SnapshotDecoders) returns (stop: bool)
      modifies this
      ensures stop <==> e.kind == DoneKind
      ensures tiles == old(tiles) + (if e.kind == TileKind then [dec.tiles(e.payload)] else [])
      ensures trees == old(trees) + (if e.kind == TreeKind then [dec.tree(e.payload)] else [])
      ensures flowers == old(flowers) + (if e.kind == FlowerKind then [dec.flower(e.payload)] else [])
      ensures grass == old(grass) + (if e.kind == GrassKind then [dec.grass(e.payload)] else [])
    {
      stop := false;
      if e.kind == TileKind {
        tiles := tiles + [dec.tiles(e.payload)];
      } else if e.kind == TreeKind {
        trees := trees + [dec.tree(e.payload)];
      } else if e.kind == FlowerKind {
        flowers := flowers + [dec.flower(e.payload)];
      } else if e.kind == GrassKind {
        grass := grass + [dec.grass(e.payload)];
      } else if e.kind == DoneKind {
        stop := true;
      }
    }

    /** The receive loop: routes the envelopes in arrival order and returns
        at the first `done`. `finished` is false when the input ran out
        without one, where the goroutine would go on waiting. */
    method ReceiveInfoItems(resp: seq<Envelope>, dec: SnapshotDecoders) returns (finished: bool)
      modifies this
      ensures finished <==> FirstDone(resp) < |resp|
      ensures tiles == old(tiles) + Routed(SnapshotPrefix(resp), TileKind, dec.tiles)
      ensures trees == old(trees) + Routed(SnapshotPrefix(resp), TreeKind, dec.tree)
      ensures flowers == old(flowers) + Routed(SnapshotPrefix(resp), FlowerKind, dec.flower)
      ensures grass == old(grass) + Routed(SnapshotPrefix(resp), GrassKind, dec.grass)
    {
      var i := 0;
      while i < |resp|
        invariant i <= FirstDone(resp)
        invariant tiles == old(tiles) + Routed(resp[..i], TileKind, dec.tiles)
        invariant trees == old(trees) + Routed(resp[..i], TreeKind, dec.tree)
        invariant flowers == old(flowers) + Routed(resp[..i], FlowerKind, dec.flower)
        invariant grass == old(grass) + Routed(resp[..i], GrassKind, dec.grass)
      {
        var stop := Step(resp, i, dec, old(tiles), old(trees), old(flowers), old(grass));
        if stop {
          assert SnapshotPrefix(resp) == resp[..i];
          return true;
        }
        i := i + 1;
      }
      assert SnapshotPrefix(resp) == resp[..i];
      return false;
    }

    /** One turn of the receive loop: route `resp[i]`, which extends each
        queue from the filter of `resp[..i]` to that of `resp[..i + 1]`
        unless it is `done`. */
    method Step(resp: seq<Envelope>, i: nat, dec: SnapshotDecoders,
                ghost t0: seq<TileGrid>, ghost tr0: seq<Tree>, ghost f0: seq<Flower>, ghost g0: seq<Grass>)
      returns (stop: bool)
      requires i < |resp|
      requires tiles == t0 + Routed(resp[..i], TileKind, dec.tiles)
      requires trees == tr0 + Routed(resp[..i], TreeKind, dec.tree)
      requires flowers == f0 + Routed(resp[..i], FlowerKind, dec.flower)
      requires grass == g0 + Routed(resp[..i], GrassKind, dec.grass)
      modifies this
      ensures stop <==> resp[i].kind == DoneKind
      ensures stop ==> tiles == old(tiles) && trees == old(trees) && flowers == old(flowers) && grass == old(grass)
      ensures !stop ==> tiles == t0 + Routed(resp[..i + 1], TileKind, dec.tiles)
      ensures !stop ==> trees == tr0 + Routed(resp[..i + 1], TreeKind, dec.tree)
      ensures !stop ==> flowers == f0 + Routed(resp[..i + 1], FlowerKind, dec.flower)
      ensures !stop ==> grass == g0 + Routed(resp[..i + 1], GrassKind, dec.grass)
    {
      stop := Route(resp[i], dec);
      RoutedSnoc(resp, i, TileKind, dec.tiles);
      RoutedSnoc(resp, i, TreeKind, dec.tree);
      RoutedSnoc(resp, i, FlowerKind, dec.flower);
      RoutedSnoc(resp, i, GrassKind, dec.grass);
    }
  }

  /** The event queues: the channels `moveCh`, `addCh` and `deleteCh`. */
  class EventDispatcher {
    var moves: seq<SpriteMove>
    var adds: seq<SpriteAdd>
    var deletes: seq<SpriteDelete>

    constructor ()
      ensures moves == [] && adds == [] && deletes == []
    {
      moves, adds, deletes := [], [], [];
    }

    /** The switch on one event envelope: a known kind pushes its decoded
        payload onto its own queue only; any other kind changes nothing. */
    method Route(e: Envelope, dec: EventDecoders)
      modifies this
      ensures moves == old(moves) + (if e.kind == MoveKind then [dec.move(e.payload)] else [])
      ensures adds == old(adds) + (if e.kind == AddKind then [dec.add(e.payload)] else [])
      ensures deletes == old(deletes) + (if e.kind == DeleteKind then [dec.delete(e.payload)] else [])
    {
      if e.kind == MoveKind {
        moves := moves + [dec.move(e.payload)];
      } else if e.kind == AddKind {
        adds := adds + [dec.add(e.payload)];
      } else if e.kind == DeleteKind {
        deletes := deletes + [dec.delete(e.payload)];
      }
    }

    /** The receive loop: the event stream has no terminal kind, so every
        envelope of the input is routed. */
    method ReceiveEventItems(resp: seq<Envelope>, dec: EventDecoders)
      modifies this
      ensures moves == old(moves) + Routed(resp, MoveKind, dec.move)
      ensures adds == old(adds) + Routed(resp, AddKind, dec.add)
      ensures deletes == old(deletes) + Routed(resp, DeleteKind, dec.delete)
    {
      var i := 0;
      while i < |resp|
        invariant i <= |resp|
        invariant moves == old(moves) + Routed(resp[..i], MoveKind, dec.move)
        invariant adds == old(adds) + Routed(resp[..i], AddKind, dec.add)
        invariant deletes == old(deletes) + Routed(resp[..i], DeleteKind, dec.delete)
      {
        Route(resp[i], dec);
        RoutedSnoc(resp, i, MoveKind, dec.move);
        RoutedSnoc(resp, i, AddKind, dec.add);
        RoutedSnoc(resp, i, DeleteKind, dec.delete);
        i := i + 1;
      }
      assert resp[..i] == resp;
    }
  }
}
