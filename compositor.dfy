/**
 * The redraw effect of the whiteboard as a pure function from its inputs
 * (committed strokes, the local point buffer, the current tool, colour and
 * size, the remote-cursor map) to the list of drawing commands it issues
 * on the 2D canvas context.
 */
module Compositor {
  import opened Seqs
  import opened Shapes
  import opened Cursors

  /** The two `globalCompositeOperation` values the redraw uses. */
  datatype Composite = SourceOver | DestinationOut

  /**
   * One canvas call, or a fixed group of them:
   * FillBg is `fillStyle = color; fillRect(whole canvas)`;
   * BeginPath is `beginPath()` with the round line cap and join that follow it;
   * StrokePath is `stroke()`;
   * Circle is `fillStyle = color; beginPath(); arc(center, radius, 0, 2π); fill()`;
   * Text is `font = ...; fillText(text, at)`.
   */
  datatype Cmd =
    | FillBg(color: string)
    | BeginPath
    | SetWidth(width: real)
    | SetComposite(mode: Composite)
    | SetStrokeColor(color: string)
    | MoveTo(p: Point)
    | LineTo(p: Point)
    | StrokePath
    | Circle(center: Point, radius: real, color: string)
    | Text(text: string, at: Point)

  const Background: string := "#1e293b"
  const CursorRadius: real := 8.0
  const LabelDx: real := 12.0
  const LabelDy: real := 4.0
  const EraserTool: string := "eraser"
  /** The id given to the not-yet-committed local stroke. */
  const TempId: string := "temp"

  /** The compositing mode a tool draws with. */
  function ModeOf(tool: string): Composite
  {
    if tool == EraserTool then DestinationOut else SourceOver
  }

  /** `lineTo` for every point, in order. */
  function LineTos(ps: seq<Point>): (r: seq<Cmd>)
    ensures |r| == |ps|
    ensures forall i :: 0 <= i < |ps| ==> r[i] == LineTo(ps[i])
  {
    if ps == [] then [] else [LineTo(ps[0])] + LineTos(ps[1..])
  }

  /** The style a stroke selects: the eraser sets no colour. */
  function StyleCmds(s: Stroke): seq<Cmd>
  {
    if s.tool == EraserTool then [SetComposite(DestinationOut)]
    else [SetComposite(SourceOver), SetStrokeColor(s.color)]
  }

  /** The commands for one stroke; a stroke of fewer than two points issues none. */
  function StrokeCmds(s: Stroke): (r: seq<Cmd>)
    ensures r == [] <==> |s.points| < 2
    ensures forall i :: 0 <= i < |r| ==> !r[i].Circle? && !r[i].Text? && !r[i].FillBg?
  {
    if |s.points| < 2 then []
    else
      [BeginPath, SetWidth(s.size)] + StyleCmds(s)
      + [MoveTo(s.points[0])] + LineTos(s.points[1..])
      + [StrokePath, SetComposite(SourceOver)]
  }

  /** The commands for a list of strokes, stroke after stroke in list order. */
  function StrokesCmds(ss: seq<Stroke>): (r: seq<Cmd>)
    ensures forall i :: 0 <= i < |r| ==> !r[i].Circle? && !r[i].Text? && !r[i].FillBg?
  {
    if ss == [] then [] else StrokeCmds(ss[0]) + StrokesCmds(ss[1..])
  }

  /** A list of one stroke draws that stroke. */
  lemma StrokesCmdsSingle(t: Stroke)
    ensures StrokesCmds([t]) == StrokeCmds(t)
  {
    assert [t][1..] == [];
    assert StrokeCmds(t) + [] == StrokeCmds(t);
  }

  /** The marker and the label for one remote cursor. */
  function CursorCmds(c: RemoteCursor): seq<Cmd>
  {
    [Circle(Point(c.x, c.y), CursorRadius, c.userColor), Text(c.userName, Point(c.x + LabelDx, c.y + LabelDy))]
  }

  /** The commands for every remote cursor, in the map's iteration order. */
  function CursorsCmds(cs: CursorMap): (r: seq<Cmd>)
    ensures |r| == 2 * |cs|
    ensures forall i :: 0 <= i < |cs| ==> r[2 * i..2 * i + 2] == CursorCmds(cs[i])
  {
    if cs == [] then []
    else
      var rest := CursorsCmds(cs[1..]);
      var r := CursorCmds(cs[0]) + rest;
      forall i | 1 <= i < |cs|
        ensures r[2 * i..2 * i + 2] == rest[2 * (i - 1)..2 * (i - 1) + 2]
        ensures cs[1..][i - 1] == cs[i]
      {
      }
      r
  }

  /**
   * Remote cursor i is drawn as commands 2i and 2i+1 of the cursor part: a
   * marker of radius 8 in its colour at its position, then its name offset
   * by (+12, +4).
   */
  lemma CursorMarkerAndLabel(cs: CursorMap, i: nat)
    requires i < |cs|
    ensures var r := CursorsCmds(cs);
      r[2 * i] == Circle(Point(cs[i].x, cs[i].y), CursorRadius, cs[i].userColor) &&
      r[2 * i + 1] == Text(cs[i].userName, Point(cs[i].x + LabelDx, cs[i].y + LabelDy))
  {
    var r := CursorsCmds(cs);
    assert r[2 * i..2 * i + 2] == CursorCmds(cs[i]);
    assert r[2 * i] == r[2 * i..2 * i + 2][0];
    assert r[2 * i + 1] == r[2 * i..2 * i + 2][1];
  }

  /** The in-progress stroke, present only while the point buffer is non-empty. */
  function InProgress(points: seq<Point>, color: string, size: real, tool: string, userId: string): (r: seq<Stroke>)
    ensures |r| == if points == [] then 0 else 1
    ensures points != [] ==> r[0] == Stroke(TempId, points, color, size, tool, userId)
  {
    if |points| > 0 then [Stroke(TempId, points, color, size, tool, userId)] else []
  }

  /** One frame: background, committed strokes, the in-progress stroke, then the cursors. */
  function Frame(strokes: seq<Stroke>, currentPoints: seq<Point>, color: string, size: real,
                 tool: string, userId: string, cursors: CursorMap): (r: seq<Cmd>)
    ensures |r| > 0 && r[0] == FillBg(Background)
  {
    [FillBg(Background)] + StrokesCmds(strokes + InProgress(currentPoints, color, size, tool, userId)) + CursorsCmds(cursors)
  }

  /** Strokes are drawn in list order: the commands of a concatenation are the concatenation of the commands. */
  lemma {:induction false} StrokesCmdsConcat(a: seq<Stroke>, b: seq<Stroke>)
    ensures StrokesCmds(a + b) == StrokesCmds(a) + StrokesCmds(b)
    decreases |a|
  {
    if a == [] {
      assert a + b == b;
    } else {
      assert (a + b)[0] == a[0];
      assert (a + b)[1..] == a[1..] + b;
      StrokesCmdsConcat(a[1..], b);
    }
  }

  /**
   * The layout of a frame: the background fill, then every committed stroke
   * in list order, then the in-progress stroke if the buffer is non-empty,
   * then a marker and a label per remote cursor.
   */
  lemma FrameLayout(strokes: seq<Stroke>, currentPoints: seq<Point>, color: string, size: real,
                    tool: string, userId: string, cursors: CursorMap)
    ensures currentPoints == [] ==>
      Frame(strokes, currentPoints, color, size, tool, userId, cursors)
      == [FillBg(Background)] + StrokesCmds(strokes) + CursorsCmds(cursors)
    ensures currentPoints != [] ==>
      Frame(strokes, currentPoints, color, size, tool, userId, cursors)
      == [FillBg(Background)] + StrokesCmds(strokes)
         + StrokeCmds(Stroke(TempId, currentPoints, color, size, tool, userId))
         + CursorsCmds(cursors)
  {
    var temp := InProgress(currentPoints, color, size, tool, userId);
    var middle := StrokesCmds(strokes + temp);
    assert Frame(strokes, currentPoints, color, size, tool, userId, cursors)
      == [FillBg(Background)] + middle + CursorsCmds(cursors);
    StrokesCmdsConcat(strokes, temp);
    if currentPoints == [] {
      assert strokes + temp == strokes;
    } else {
      var t := Stroke(TempId, currentPoints, color, size, tool, userId);
      assert temp == [t];
      StrokesCmdsSingle(t);
      AppendAssoc4([FillBg(Background)], StrokesCmds(strokes), StrokeCmds(t), CursorsCmds(cursors));
    }
  }

  /** Cursor commands come after every stroke command and are the only markers and labels in the frame. */
  lemma FrameCursorsLast(strokes: seq<Stroke>, currentPoints: seq<Point>, color: string, size: real,
                         tool: string, userId: string, cursors: CursorMap)
    ensures var r := Frame(strokes, currentPoints, color, size, tool, userId, cursors);
      var n := |r| - 2 * |cursors|;
      n >= 1 &&
      (forall j :: 1 <= j < n ==> !r[j].Circle? && !r[j].Text? && !r[j].FillBg?) &&
      (forall j :: n <= j < |r| ==> r[j].Circle? || r[j].Text?)
  {
    var r := Frame(strokes, currentPoints, color, size, tool, userId, cursors);
    var body := StrokesCmds(strokes + InProgress(currentPoints, color, size, tool, userId));
    var tail := CursorsCmds(cursors);
    assert r == [FillBg(Background)] + body + tail;
    forall j | 1 <= j < 1 + |body| ensures !r[j].Circle? && !r[j].Text? && !r[j].FillBg? {
      assert r[j] == body[j - 1];
    }
    forall j | 1 + |body| <= j < |r| ensures r[j].Circle? || r[j].Text? {
      var k := j - 1 - |body|;
      assert r[j] == tail[k];
      var i := k / 2;
      assert 0 <= i < |cursors|;
      CursorMarkerAndLabel(cursors, i);
      if k % 2 == 0 {
        assert k == 2 * i;
      } else {
        assert k == 2 * i + 1;
      }
    }
  }

  /**
   * The commands of a stroke of n >= 2 points: begin the path, set the width,
   * select the tool's compositing mode (and the colour, for every tool but
   * the eraser), move to point 0, one line to each later point in order,
   * stroke, and reset the compositing mode to source-over.
   */
  lemma DrawnStrokeLayout(s: Stroke)
    requires |s.points| >= 2
    ensures var r := StrokeCmds(s);
      var n := |s.points|;
      var o := if s.tool == EraserTool then 3 else 4;
      |r| == o + n + 2 &&
      r[0] == BeginPath && r[1] == SetWidth(s.size) &&
      r[2] == SetComposite(ModeOf(s.tool)) &&
      (s.tool != EraserTool ==> r[3] == SetStrokeColor(s.color)) &&
      r[o] == MoveTo(s.points[0]) &&
      (forall i :: 1 <= i < n ==> r[o + i] == LineTo(s.points[i])) &&
      r[o + n] == StrokePath &&
      r[o + n + 1] == SetComposite(SourceOver)
  {
    var r := StrokeCmds(s);
    var n := |s.points|;
    var o := if s.tool == EraserTool then 3 else 4;
    var lines := LineTos(s.points[1..]);
    assert r == [BeginPath, SetWidth(s.size)] + StyleCmds(s) + [MoveTo(s.points[0])] + lines + [StrokePath, SetComposite(SourceOver)];
    assert |StyleCmds(s)| == o - 2;
    forall i | 1 <= i < n ensures r[o + i] == LineTo(s.points[i]) {
      assert r[o + i] == lines[i - 1];
      assert s.points[1..][i - 1] == s.points[i];
    }
  }

  /** The eraser never sets a stroke colour; every other tool sets exactly its stroke's colour. */
  lemma StrokeColorRule(s: Stroke)
    ensures s.tool == EraserTool ==> forall c :: c in StrokeCmds(s) ==> !c.SetStrokeColor?
    ensures s.tool != EraserTool ==> forall c :: c in StrokeCmds(s) && c.SetStrokeColor? ==> c == SetStrokeColor(s.color)
  {
    if |s.points| >= 2 {
      var lines := LineTos(s.points[1..]);
      var r := StrokeCmds(s);
      assert r == [BeginPath, SetWidth(s.size)] + StyleCmds(s) + [MoveTo(s.points[0])] + lines + [StrokePath, SetComposite(SourceOver)];
      forall c | c in lines ensures c.LineTo? {
        var i :| 0 <= i < |lines| && lines[i] == c;
      }
    }
  }
}
