/**
 * The whiteboard component's state and its event handlers. Each handler is
 * one atomic step: the store, the change feed and the presence channel are
 * outside the model, so their deliveries arrive as method arguments and
 * what the component sends them comes back as results.
 */
module WhiteboardComponent {
  import opened Wrappers
  import opened Shapes
  import opened StrokeLog
  import opened Cursors
  import opened Compositor

  class Whiteboard {
    const roomId: string
    const userId: string
    const userName: string
    const userColor: string

    var isDrawing: bool
    var strokes: seq<Stroke>
    var currentPoints: seq<Point>
    var remoteCursors: CursorMap

    /**
     * The point buffer is non-empty exactly while a stroke is being drawn,
     * and the cursor map has distinct keys, none of them the local user.
     */
    ghost predicate Valid()
      reads this
    {
      (isDrawing <==> currentPoints != []) &&
      UniqueKeys(remoteCursors) && !HasKey(remoteCursors, userId)
    }

    constructor (roomId: string, userId: string, userName: string, userColor: string)
      ensures this.roomId == roomId && this.userId == userId
      ensures this.userName == userName && this.userColor == userColor
      ensures !isDrawing && strokes == [] && currentPoints == [] && remoteCursors == []
      ensures Valid()
    {
      this.roomId, this.userId, this.userName, this.userColor := roomId, userId, userName, userColor;
      isDrawing, strokes, currentPoints, remoteCursors := false, [], [], [];
    }

    /** An INSERT notification from the room's change feed: the new row is appended. */
    method OnInsert(row: StrokeRow)
      requires Valid()
      modifies this`strokes
      ensures Valid()
      ensures strokes == Apply(old(strokes), Inserted(row))
    {
      strokes := strokes + [FromRow(row)];
    }

    /** A DELETE notification, for any row of the table: the list is emptied. */
    method OnDelete()
      requires Valid()
      modifies this`strokes
      ensures Valid()
      ensures strokes == Apply(old(strokes), Deleted)
    {
      strokes := [];
    }

    /** The answer to the room's stroke query. */
    method OnLoad(result: LoadResult)
      requires Valid()
      modifies this`strokes
      ensures Valid()
      ensures strokes == Apply(old(strokes), Loaded(result))
    {
      if result.error.Some? {
        return;
      }
      if result.data.Some? {
        strokes := FromRows(result.data.value);
      }
    }

    /** A presence sync on the cursor channel: the map is rebuilt from the snapshot alone. */
    method OnPresenceSync(state: Snapshot)
      requires Valid()
      modifies this`remoteCursors
      ensures Valid()
      ensures remoteCursors == CursorsOf(state, userId)
    {
      remoteCursors := BuildCursors(state, userId);
    }

    /** Mouse-down: start a stroke whose buffer is exactly the pressed point. */
    method MouseDown(point: Point)
      requires Valid()
      modifies this`isDrawing, this`currentPoints
      ensures Valid()
      ensures isDrawing && currentPoints == [point]
    {
      isDrawing := true;
      currentPoints := [point];
    }

    /**
     * Mouse-move: the cursor is published at the point in every case; the
     * point joins the buffer only while drawing.
     */
    method MouseMove(point: Point, now: int) returns (publish: Presence)
      requires Valid()
      modifies this`currentPoints
      ensures Valid()
      ensures publish == Presence(userId, userName, userColor, point.x, point.y, now)
      ensures currentPoints == if isDrawing then old(currentPoints) + [point] else old(currentPoints)
    {
      publish := Presence(userId, userName, userColor, point.x, point.y, now);
      if !isDrawing {
        return;
      }
      currentPoints := currentPoints + [point];
    }

    /**
     * Mouse-up, and mouse-leave (the same handler): when a stroke is under
     * way its buffer is submitted once, with the current colour, size and
     * tool, and the buffer is cleared whatever the store answers; otherwise
     * only the drawing flag is cleared and nothing is submitted.
     */
    method MouseUp(currentTool: string, currentColor: string, brushSize: real)
      returns (submission: Option<NewStrokeRow>)
      requires Valid()
      modifies this`isDrawing, this`currentPoints
      ensures Valid()
      ensures !isDrawing
      ensures submission.None? <==> (!old(isDrawing) || old(currentPoints) == [])
      ensures submission.None? ==> currentPoints == old(currentPoints)
      ensures submission.Some? ==>
        submission.value == NewStrokeRow(roomId, userId, userName, userColor, old(currentPoints),
                                         currentColor, brushSize, currentTool) &&
        currentPoints == []
    {
      if !isDrawing || |currentPoints| == 0 {
        isDrawing := false;
        return None;
      }
      isDrawing := false;
      submission := Some(NewStrokeRow(roomId, userId, userName, userColor, currentPoints,
                                      currentColor, brushSize, currentTool));
      currentPoints := [];
    }

    /**
     * The frame the redraw effect draws from the current state: the
     * in-progress stroke is part of it exactly while the point buffer is
     * non-empty, whatever the drawing flag says.
     */
    function Redraw(currentTool: string, currentColor: string, brushSize: real): (r: seq<Cmd>)
      reads this
      ensures currentPoints == [] ==> r == [FillBg(Background)] + StrokesCmds(strokes) + CursorsCmds(remoteCursors)
      ensures currentPoints != [] ==>
        r == [FillBg(Background)] + StrokesCmds(strokes)
             + StrokeCmds(Stroke(TempId, currentPoints, currentColor, brushSize, currentTool, userId))
             + CursorsCmds(remoteCursors)
    {
      FrameLayout(strokes, currentPoints, currentColor, brushSize, currentTool, userId, remoteCursors);
      Frame(strokes, currentPoints, currentColor, brushSize, currentTool, userId, remoteCursors)
    }
  }
}
