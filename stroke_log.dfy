/**
 * The committed stroke list of the whiteboard and the three events that
 * change it: an insert notification, a delete notification and the result
 * of the initial load. The list is a plain fold over these events: inserts
 * are appended as delivered (no de-duplication by id, no re-sorting), any
 * delete empties it, and a load replaces it unless the load failed.
 */
module StrokeLog {
  import opened Seqs
  import opened Wrappers
  import opened Shapes

  /** The `{ data, error }` pair the stroke query resolves to. */
  datatype LoadResult = LoadResult(error: Option<string>, data: Option<seq<StrokeRow>>)

  /** An event that changes the committed list. */
  datatype StrokeEvent =
    | Inserted(row: StrokeRow)
    | Deleted
    | Loaded(result: LoadResult)

  /** The stroke the component builds from a table row. */
  function FromRow(r: StrokeRow): Stroke
  {
    Stroke(r.id, r.points, r.color, r.size, r.tool, r.userId)
  }

  /** `data.map(...)`: every row converted, in the order given. */
  function FromRows(rows: seq<StrokeRow>): (r: seq<Stroke>)
    ensures |r| == |rows|
    ensures forall i :: 0 <= i < |rows| ==> r[i] == FromRow(rows[i])
  {
    if rows == [] then [] else [FromRow(rows[0])] + FromRows(rows[1..])
  }

  /** The committed list after one event. */
  function Apply(strokes: seq<Stroke>, e: StrokeEvent): (r: seq<Stroke>)
    ensures e.Inserted? ==>
      |r| == |strokes| + 1 && r[..|strokes|] == strokes && r[|strokes|] == FromRow(e.row)
    ensures e.Deleted? ==> r == []
    ensures e.Loaded? && e.result.error.Some? ==> r == strokes
    ensures e.Loaded? && e.result.error.None? && e.result.data.None? ==> r == strokes
    ensures e.Loaded? && e.result.error.None? && e.result.data.Some? ==>
      |r| == |e.result.data.value| &&
      forall i :: 0 <= i < |r| ==>
        var row := e.result.data.value[i];
        r[i].id == row.id && r[i].points == row.points && r[i].color == row.color &&
        r[i].size == row.size && r[i].tool == row.tool && r[i].userId == row.userId
  {
    match e
    case Inserted(row) => strokes + [FromRow(row)]
    case Deleted => []
    case Loaded(res) =>
      if res.error.Some? then strokes
      else if res.data.Some? then FromRows(res.data.value)
      else strokes
  }

  /** The committed list after a sequence of events, delivered in order. */
  function Replay(strokes: seq<Stroke>, events: seq<StrokeEvent>): seq<Stroke>
    decreases |events|
  {
    if events == [] then strokes else Replay(Apply(strokes, events[0]), events[1..])
  }

  /** Insert notifications for the given rows, in order. */
  function Inserts(rows: seq<StrokeRow>): (r: seq<StrokeEvent>)
    ensures |r| == |rows|
    ensures forall i :: 0 <= i < |rows| ==> r[i] == Inserted(rows[i])
  {
    if rows == [] then [] else [Inserted(rows[0])] + Inserts(rows[1..])
  }

  /** Replaying two batches of events is replaying the second from where the first left off. */
  lemma {:induction false} ReplayConcat(s: seq<Stroke>, a: seq<StrokeEvent>, b: seq<StrokeEvent>)
    ensures Replay(s, a + b) == Replay(Replay(s, a), b)
    decreases |a|
  {
    if a == [] {
      assert a + b == b;
    } else {
      assert (a + b)[0] == a[0];
      assert (a + b)[1..] == a[1..] + b;
      ReplayConcat(Apply(s, a[0]), a[1..], b);
    }
  }

  /**
   * Every insert notification is kept: a run of inserts appends one stroke
   * per notification, in delivery order, whatever their ids.
   */
  lemma {:induction false} ReplayInserts(s: seq<Stroke>, rows: seq<StrokeRow>)
    ensures Replay(s, Inserts(rows)) == s + FromRows(rows)
    ensures |Replay(s, Inserts(rows))| == |s| + |rows|
    decreases |rows|
  {
    if rows == [] {
      assert s + [] == s;
    } else {
      var x := FromRow(rows[0]);
      InsertStep(s, rows);
      ReplayInserts(s + [x], rows[1..]);
      AppendAssoc(s, [x], FromRows(rows[1..]));
    }
  }

  /** The first insert of a run appends its stroke; the rest replay from there. */
  lemma InsertStep(s: seq<Stroke>, rows: seq<StrokeRow>)
    requires rows != []
    ensures Replay(s, Inserts(rows)) == Replay(s + [FromRow(rows[0])], Inserts(rows[1..]))
    ensures FromRows(rows) == [FromRow(rows[0])] + FromRows(rows[1..])
  {
    var evs := Inserts(rows);
    assert evs[0] == Inserted(rows[0]);
    assert evs[1..] == Inserts(rows[1..]);
    assert Apply(s, evs[0]) == s + [FromRow(rows[0])];
  }

  /**
   * A notification delivered twice gives two copies of the stroke: the fold
   * is not idempotent by id.
   */
  lemma DuplicateInsertKept(s: seq<Stroke>, row: StrokeRow)
    ensures Replay(s, [Inserted(row), Inserted(row)]) == s + [FromRow(row), FromRow(row)]
    ensures |Replay(s, [Inserted(row), Inserted(row)])| == |s| + 2
  {
    var rows := [row, row];
    assert Inserts(rows) == [Inserted(row), Inserted(row)];
    ReplayInserts(s, rows);
    assert FromRows(rows) == [FromRow(row), FromRow(row)];
  }

  /**
   * A delete forgets all history before it: what follows is replayed on an
   * empty list, whatever the events before it were.
   */
  lemma {:induction false} ReplayAfterDelete(s: seq<Stroke>, before: seq<StrokeEvent>, after: seq<StrokeEvent>)
    ensures Replay(s, before + [Deleted] + after) == Replay([], after)
  {
    ReplayConcat(s, before + [Deleted], after);
    ReplayConcat(s, before, [Deleted]);
    assert Replay(Replay(s, before), [Deleted]) == Replay([], []);
  }

  /** An insert that arrives after a delete is accepted normally. */
  lemma InsertAfterDelete(s: seq<Stroke>, before: seq<StrokeEvent>, row: StrokeRow)
    ensures Replay(s, before + [Deleted] + [Inserted(row)]) == [FromRow(row)]
  {
    ReplayAfterDelete(s, before, [Inserted(row)]);
    assert Replay([], [Inserted(row)]) == Replay([FromRow(row)], []);
  }

  /** A failed load changes nothing, wherever it falls in the event stream. */
  lemma {:induction false} FailedLoadIgnored(s: seq<Stroke>, before: seq<StrokeEvent>, res: LoadResult, after: seq<StrokeEvent>)
    requires res.error.Some?
    ensures Replay(s, before + [Loaded(res)] + after) == Replay(s, before + after)
  {
    ReplayConcat(s, before + [Loaded(res)], after);
    ReplayConcat(s, before, [Loaded(res)]);
    ReplayConcat(s, before, after);
    assert Replay(Replay(s, before), [Loaded(res)]) == Replay(Replay(s, before), []);
  }

  /** A successful load makes the list exactly the loaded rows, in the order returned. */
  lemma {:induction false} LoadResets(s: seq<Stroke>, before: seq<StrokeEvent>, rows: seq<StrokeRow>, after: seq<StrokeEvent>)
    ensures Replay(s, before + [Loaded(LoadResult(None, Some(rows)))] + after) == Replay(FromRows(rows), after)
  {
    var load := Loaded(LoadResult(None, Some(rows)));
    ReplayConcat(s, before + [load], after);
    ReplayConcat(s, before, [load]);
    assert Replay(Replay(s, before), [load]) == Replay(FromRows(rows), []);
  }
}
