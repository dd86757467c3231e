/** The values exchanged between the wonder server and the `info` command:
    the typed envelopes of both response streams, and the world entities
    their payloads decode to. */
module Share {

  newtype byte = x: int | 0 <= x < 256

  /** The encoded body of an envelope, opaque to the dispatchers. */
  type Payload = seq<byte>

  /** The discriminator of an envelope. */
  type Kind = string

  // Discriminators of the snapshot (info) stream.
  const TileKind: Kind := "tile"
  const TreeKind: Kind := "tree"
  const FlowerKind: Kind := "flower"
  const GrassKind: Kind := "grass"
  const DoneKind: Kind := "done"

  // Discriminators of the live event (subscribe) stream.
  const MoveKind: Kind := "move"
  const AddKind: Kind := "add"
  const DeleteKind: Kind := "delete"

  /** One response object of either stream: its `Type` and its `Payload`. */
  datatype Envelope = Envelope(kind: Kind, payload: Payload)

  /** A 0-based position in the world. */
  datatype Point = Point(x: int, y: int)

  /** One ground cell; a positive gradient is drawn as mud. */
  datatype Tile = Tile(gradient: int)

  /** The world's ground, row by row; rows may differ in length. */
  type TileGrid = seq<seq<Tile>>

  datatype Tree = Tree(point: Point)
  datatype Flower = Flower(point: Point)
  datatype Grass = Grass(point: Point)

  datatype SpriteMove = SpriteMove(id: string, point: Point)
  datatype SpriteAdd = SpriteAdd(id: string, sprite: string, point: Point)
  datatype SpriteDelete = SpriteDelete(id: string)
}
