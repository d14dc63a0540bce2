/**
 * A small model of the 2D canvas context that gives the redraw's command
 * list a meaning: the context state the commands change and the marks that
 * its painting calls leave, in order. Pixels are not modelled; a mark
 * records what was painted, with which compositing mode.
 */
module Canvas {
  import opened Seqs
  import opened Wrappers
  import opened Shapes
  import opened Cursors
  import opened Compositor

  /** The context state the redraw changes: compositing mode, fill colour, stroke colour, line width, current polyline. */
  datatype Ctx = Ctx(composite: Composite, fillStyle: string, strokeStyle: string, lineWidth: real, path: seq<Point>)

  /**
   * What a painting call leaves. A destination-out stroke uses only the
   * coverage of its path, never the stroke colour, so it records none.
   */
  datatype Mark =
    | Filled(mode: Composite, color: string)
    | Painted(mode: Composite, ink: Option<string>, width: real, path: seq<Point>)
    | Marker(mode: Composite, center: Point, radius: real, color: string)
    | Label(mode: Composite, text: string, at: Point, color: string)

  /** The effect of one command. The arc of a marker is not a polyline and is not kept in `path`. */
  function Exec(ctx: Ctx, c: Cmd): (Ctx, seq<Mark>)
  {
    match c
    case FillBg(color) => (ctx.(fillStyle := color), [Filled(ctx.composite, color)])
    case BeginPath => (ctx.(path := []), [])
    case SetWidth(w) => (ctx.(lineWidth := w), [])
    case SetComposite(m) => (ctx.(composite := m), [])
    case SetStrokeColor(color) => (ctx.(strokeStyle := color), [])
    case MoveTo(p) => (ctx.(path := ctx.path + [p]), [])
    case LineTo(p) => (ctx.(path := ctx.path + [p]), [])
    case StrokePath =>
      var color := if ctx.composite == SourceOver then Some(ctx.strokeStyle) else None;
      (ctx, [Painted(ctx.composite, color, ctx.lineWidth, ctx.path)])
    case Circle(center, radius, color) =>
      (ctx.(fillStyle := color, path := []), [Marker(ctx.composite, center, radius, color)])
    case Text(text, at) => (ctx, [Label(ctx.composite, text, at, ctx.fillStyle)])
  }

  /** The final context state and the marks left by a list of commands, in order. */
  function Run(ctx: Ctx, cmds: seq<Cmd>): (Ctx, seq<Mark>)
    decreases |cmds|
  {
    if cmds == [] then (ctx, [])
    else
      var first := Exec(ctx, cmds[0]);
      var rest := Run(first.0, cmds[1..]);
      (rest.0, first.1 + rest.1)
  }

  /** Running a command followed by a list. */
  lemma RunCons(ctx: Ctx, c: Cmd, rest: seq<Cmd>)
    ensures Run(ctx, [c] + rest) == (Run(Exec(ctx, c).0, rest).0, Exec(ctx, c).1 + Run(Exec(ctx, c).0, rest).1)
  {
    assert ([c] + rest)[0] == c;
    assert ([c] + rest)[1..] == rest;
  }

  /** Running a single command. */
  lemma RunOne(ctx: Ctx, c: Cmd)
    ensures Run(ctx, [c]) == Exec(ctx, c)
  {
    RunCons(ctx, c, []);
    assert [c] + [] == [c];
    assert Exec(ctx, c).1 + [] == Exec(ctx, c).1;
  }

  /** Running two command lists in sequence. */
  lemma {:induction false} RunConcat(ctx: Ctx, a: seq<Cmd>, b: seq<Cmd>)
    ensures Run(ctx, a + b).0 == Run(Run(ctx, a).0, b).0
    ensures Run(ctx, a + b).1 == Run(ctx, a).1 + Run(Run(ctx, a).0, b).1
    decreases |a|
  {
    if a == [] {
      assert a + b == b;
    } else {
      assert (a + b)[0] == a[0];
      assert (a + b)[1..] == a[1..] + b;
      RunConcat(Exec(ctx, a[0]).0, a[1..], b);
    }
  }

  /** `lineTo` over a list of points extends the path by exactly those points and paints nothing. */
  lemma {:induction false} RunLineTos(ctx: Ctx, ps: seq<Point>)
    ensures Run(ctx, LineTos(ps)) == (ctx.(path := ctx.path + ps), [])
    decreases |ps|
  {
    if ps == [] {
      assert ctx.path + ps == ctx.path;
    } else {
      var c1 := ctx.(path := ctx.path + [ps[0]]);
      var none: seq<Mark> := [];
      assert LineTos(ps) == [LineTo(ps[0])] + LineTos(ps[1..]);
      RunCons(ctx, LineTo(ps[0]), LineTos(ps[1..]));
      assert Exec(ctx, LineTo(ps[0])) == (c1, none);
      RunLineTos(c1, ps[1..]);
      AppendAssoc(ctx.path, [ps[0]], ps[1..]);
      assert [ps[0]] + ps[1..] == ps;
      assert none + none == none;
    }
  }

  /** The mark a drawable stroke must leave: its polyline, its width, its tool's mode, and its colour unless it erases. */
  function PaintOf(s: Stroke): Mark
  {
    Painted(ModeOf(s.tool), if s.tool == EraserTool then None else Some(s.color), s.size, s.points)
  }

  /** The marks a list of strokes must leave: one per stroke of two or more points, in list order. */
  function Paints(ss: seq<Stroke>): seq<Mark>
  {
    if ss == [] then []
    else (if |ss[0].points| >= 2 then [PaintOf(ss[0])] else []) + Paints(ss[1..])
  }

  /** The marks a list of cursors must leave: a marker, then a label in the same colour, per cursor, in map order. */
  function CursorMarks(mode: Composite, cs: CursorMap): (r: seq<Mark>)
    ensures |r| == 2 * |cs|
  {
    if cs == [] then []
    else
      var c := cs[0];
      [Marker(mode, Point(c.x, c.y), CursorRadius, c.userColor),
       Label(mode, c.userName, Point(c.x + LabelDx, c.y + LabelDy), c.userColor)]
      + CursorMarks(mode, cs[1..])
  }

  /** The set-up of a stroke selects its width and mode (and colour, unless it erases) and starts the path at point 0. */
  lemma RunStrokeHead(ctx: Ctx, s: Stroke)
    requires |s.points| >= 1
    ensures Run(ctx, [BeginPath, SetWidth(s.size)] + StyleCmds(s) + [MoveTo(s.points[0])])
      == (Ctx(ModeOf(s.tool), ctx.fillStyle, if s.tool == EraserTool then ctx.strokeStyle else s.color, s.size, [s.points[0]]), [])
  {
    var head := [BeginPath, SetWidth(s.size)] + StyleCmds(s) + [MoveTo(s.points[0])];
    var p0 := s.points[0];
    var mid := Ctx(ModeOf(s.tool), ctx.fillStyle, if s.tool == EraserTool then ctx.strokeStyle else s.color, s.size, [p0]);
    var c1 := ctx.(path := []);
    var c2 := c1.(lineWidth := s.size);
    var c3 := c2.(composite := ModeOf(s.tool));
    var c4 := c3.(strokeStyle := mid.strokeStyle);
    var none: seq<Mark> := [];
    assert none + none == none;
    assert c4 == Ctx(ModeOf(s.tool), ctx.fillStyle, mid.strokeStyle, s.size, []);
    assert c4.path + [p0] == [p0];
    assert Exec(c4, MoveTo(p0)) == (mid, none);
    RunOne(c4, MoveTo(p0));
    var style := StyleCmds(s) + [MoveTo(p0)];
    if s.tool == EraserTool {
      assert style == [SetComposite(DestinationOut)] + [MoveTo(p0)];
      assert Exec(c2, SetComposite(DestinationOut)) == (c4, none);
      RunCons(c2, SetComposite(DestinationOut), [MoveTo(p0)]);
    } else {
      assert style == [SetComposite(SourceOver)] + ([SetStrokeColor(s.color)] + [MoveTo(p0)]);
      assert Exec(c3, SetStrokeColor(s.color)) == (c4, none);
      RunCons(c3, SetStrokeColor(s.color), [MoveTo(p0)]);
      assert Exec(c2, SetComposite(SourceOver)) == (c3, none);
      RunCons(c2, SetComposite(SourceOver), [SetStrokeColor(s.color)] + [MoveTo(p0)]);
    }
    assert Run(c2, style) == (mid, none);
    assert head == [BeginPath] + ([SetWidth(s.size)] + style);
    assert Exec(c1, SetWidth(s.size)) == (c2, none);
    RunCons(c1, SetWidth(s.size), style);
    assert Exec(ctx, BeginPath) == (c1, none);
    RunCons(ctx, BeginPath, [SetWidth(s.size)] + style);
  }

  /** Stroking the path and resetting the mode leaves the stroke's mark. */
  lemma RunStrokeTail(ctx: Ctx, s: Stroke)
    requires ctx.composite == ModeOf(s.tool) && ctx.lineWidth == s.size && ctx.path == s.points
    requires s.tool != EraserTool ==> ctx.strokeStyle == s.color
    ensures Run(ctx, [StrokePath, SetComposite(SourceOver)]) == (ctx.(composite := SourceOver), [PaintOf(s)])
  {
    var none: seq<Mark> := [];
    assert Exec(ctx, SetComposite(SourceOver)) == (ctx.(composite := SourceOver), none);
    RunOne(ctx, SetComposite(SourceOver));
    assert Exec(ctx, StrokePath) == (ctx, [PaintOf(s)]);
    RunCons(ctx, StrokePath, [SetComposite(SourceOver)]);
    assert [StrokePath] + [SetComposite(SourceOver)] == [StrokePath, SetComposite(SourceOver)];
    assert [PaintOf(s)] + none == [PaintOf(s)];
  }

  /**
   * One drawable stroke leaves exactly its own mark and ends with the mode
   * reset to source-over, its width selected and its polyline as the path;
   * only a non-eraser stroke changes the stroke colour.
   */
  lemma RunStroke(ctx: Ctx, s: Stroke)
    requires |s.points| >= 2
    ensures Run(ctx, StrokeCmds(s)).1 == [PaintOf(s)]
    ensures Run(ctx, StrokeCmds(s)).0 ==
      Ctx(SourceOver, ctx.fillStyle, if s.tool == EraserTool then ctx.strokeStyle else s.color, s.size, s.points)
  {
    var head := [BeginPath, SetWidth(s.size)] + StyleCmds(s) + [MoveTo(s.points[0])];
    var lines := LineTos(s.points[1..]);
    var tail := [StrokePath, SetComposite(SourceOver)];
    assert StrokeCmds(s) == head + lines + tail;
    var mid := Ctx(ModeOf(s.tool), ctx.fillStyle, if s.tool == EraserTool then ctx.strokeStyle else s.color, s.size, [s.points[0]]);
    RunStrokeHead(ctx, s);
    RunLineTos(mid, s.points[1..]);
    assert [s.points[0]] + s.points[1..] == s.points;
    var drawn := mid.(path := s.points);
    RunConcat(ctx, head, lines);
    RunConcat(ctx, head + lines, tail);
    RunStrokeTail(drawn, s);
  }

  /**
   * A list of strokes, run from source-over mode, leaves exactly the marks
   * of its drawable strokes in list order and ends in source-over mode.
   */
  lemma {:induction false} RunStrokes(ctx: Ctx, ss: seq<Stroke>)
    requires ctx.composite == SourceOver
    ensures Run(ctx, StrokesCmds(ss)).1 == Paints(ss)
    ensures Run(ctx, StrokesCmds(ss)).0.composite == SourceOver
    decreases |ss|
  {
    if ss != [] {
      var first := StrokeCmds(ss[0]);
      RunConcat(ctx, first, StrokesCmds(ss[1..]));
      if |ss[0].points| >= 2 {
        RunStroke(ctx, ss[0]);
        RunStrokes(Run(ctx, first).0, ss[1..]);
      } else {
        assert first == [];
        RunStrokes(ctx, ss[1..]);
      }
    }
  }

  /**
   * The cursor commands leave a marker and a label per cursor, in the
   * current mode; the label is filled in the cursor's colour, which its
   * marker left as the fill style. No mode changes.
   */
  lemma {:induction false} RunCursors(ctx: Ctx, cs: CursorMap)
    ensures Run(ctx, CursorsCmds(cs)).1 == CursorMarks(ctx.composite, cs)
    ensures Run(ctx, CursorsCmds(cs)).0.composite == ctx.composite
    decreases |cs|
  {
    if cs != [] {
      var c := cs[0];
      var two := CursorCmds(c);
      assert CursorsCmds(cs) == two + CursorsCmds(cs[1..]);
      RunConcat(ctx, two, CursorsCmds(cs[1..]));
      var after := ctx.(fillStyle := c.userColor, path := []);
      var marker := Marker(ctx.composite, Point(c.x, c.y), CursorRadius, c.userColor);
      var tag := Label(ctx.composite, c.userName, Point(c.x + LabelDx, c.y + LabelDy), c.userColor);
      assert Exec(after, two[1]) == (after, [tag]);
      RunOne(after, two[1]);
      assert Exec(ctx, two[0]) == (after, [marker]);
      RunCons(ctx, two[0], [two[1]]);
      assert two == [two[0]] + [two[1]];
      assert [marker] + [tag] == [marker, tag];
      assert Run(ctx, two) == (after, [marker, tag]);
      RunCursors(after, cs[1..]);
    }
  }

  /**
   * What a frame paints, from a context in source-over mode (the canvas
   * default, and the mode every frame leaves): the background, then one
   * mark per drawable stroke (committed strokes in list order, then the
   * in-progress one), then every remote cursor drawn in source-over mode,
   * so no stroke can erase a cursor. The frame again ends in source-over mode.
   */
  lemma FrameMarks(ctx: Ctx, strokes: seq<Stroke>, currentPoints: seq<Point>, color: string, size: real,
                   tool: string, userId: string, cursors: CursorMap)
    requires ctx.composite == SourceOver
    ensures var run := Run(ctx, Frame(strokes, currentPoints, color, size, tool, userId, cursors));
      run.1 == [Filled(SourceOver, Background)] + Paints(strokes + InProgress(currentPoints, color, size, tool, userId))
               + CursorMarks(SourceOver, cursors) &&
      run.0.composite == SourceOver
  {
    var all := strokes + InProgress(currentPoints, color, size, tool, userId);
    var bg: seq<Cmd> := [FillBg(Background)];
    var body := StrokesCmds(all);
    var tail := CursorsCmds(cursors);
    assert Frame(strokes, currentPoints, color, size, tool, userId, cursors) == bg + body + tail;
    var filled := ctx.(fillStyle := Background);
    RunOne(ctx, FillBg(Background));
    assert Run(ctx, bg) == (filled, [Filled(SourceOver, Background)]);
    RunConcat(ctx, bg, body);
    RunConcat(ctx, bg + body, tail);
    RunStrokes(filled, all);
    RunCursors(Run(ctx, bg + body).0, cursors);
  }

  /** Drawable strokes are painted in list order: the marks of a concatenation are the concatenation of the marks. */
  lemma {:induction false} PaintsConcat(a: seq<Stroke>, b: seq<Stroke>)
    ensures Paints(a + b) == Paints(a) + Paints(b)
    decreases |a|
  {
    if a == [] {
      assert a + b == b;
    } else {
      var own := if |a[0].points| >= 2 then [PaintOf(a[0])] else [];
      assert (a + b)[0] == a[0];
      assert (a + b)[1..] == a[1..] + b;
      assert Paints(a + b) == own + Paints(a[1..] + b);
      PaintsConcat(a[1..], b);
      assert own + (Paints(a[1..]) + Paints(b)) == (own + Paints(a[1..])) + Paints(b);
    }
  }
}
