/**
 * The records the whiteboard exchanges: points, committed strokes, the rows
 * of the stroke table, presence payloads and remote cursors.
 * Coordinates and sizes are JavaScript numbers; they are modelled as `real`
 * (rounding plays no part in what is proved). Timestamps are milliseconds.
 */
module Shapes {

  /** A point in canvas pixel space. */
  datatype Point = Point(x: real, y: real)

  /** A stroke as the component keeps it in its committed list. */
  datatype Stroke = Stroke(
    id: string,
    points: seq<Point>,
    color: string,
    size: real,
    tool: string,
    userId: string)

  /** A row of the `whiteboard_strokes` table, as a load or an insert notification delivers it. */
  datatype StrokeRow = StrokeRow(
    id: string,
    roomId: string,
    userId: string,
    userName: string,
    userColor: string,
    points: seq<Point>,
    color: string,
    size: real,
    tool: string)

  /** The row a finished local stroke asks the store to insert (the store assigns its id). */
  datatype NewStrokeRow = NewStrokeRow(
    roomId: string,
    userId: string,
    userName: string,
    userColor: string,
    points: seq<Point>,
    color: string,
    size: real,
    tool: string)

  /** The state one participant tracks on a presence channel. */
  datatype Presence = Presence(
    userId: string,
    userName: string,
    userColor: string,
    x: real,
    y: real,
    timestamp: int)

  /**
   * A presence snapshot: for every presence key, in the order the channel
   * lists its keys, the presences tracked under that key.
   */
  type Snapshot = seq<(string, seq<Presence>)>

  /** The position of another participant's mouse, as the canvas draws it. */
  datatype RemoteCursor = RemoteCursor(
    userId: string,
    userName: string,
    userColor: string,
    x: real,
    y: real,
    timestamp: int)
}
