# IdeaFlame whiteboard: a Dafny model

IdeaFlame is a real-time collaborative whiteboard. Participants join a room under a name. Each draws strokes with
a pen or an eraser and sees everyone else's strokes and mouse positions. This project models the whiteboard component
(`src/components/Whiteboard.tsx`) and the page that hosts it (`src/pages/Index.tsx`), then proves properties of that
model. The component keeps four pieces of state:

- the committed stroke list, changed by the room's insert and delete notifications and by the initial load;
- the local drawing session, a flag plus a point buffer driven by the mouse handlers;
- the remote-cursor map, rebuilt from every presence sync;
- the frame its redraw effect paints from all of the above.

The page gates joining on a trimmed name and keeps a roster rebuilt from its own presence channel.

Modules:

- `Shapes`: the records the component handles (point, stroke, table row, insert request, presence, cursor) and the
  presence snapshot. The snapshot is a sequence of (key, presences) pairs, so key order is explicit.
- `StrokeLog`: the committed list as a fold (`Replay`) over insert, delete and load events (`Apply`).
- `Cursors`: the JavaScript `Map` the sync handler fills. It is modelled as an insertion-ordered sequence with
  distinct keys, where `set` overwrites an existing key in place. The module also holds the sync loop and its
  specification `CursorsOf`.
- `Compositor`: the redraw as a pure function `Frame` from its inputs to a list of canvas commands.
- `Canvas`: a small interpreter for those commands. It tracks the context state the redraw changes (compositing
  mode, fill colour, stroke colour, line width, current path) and records the mark each painting call leaves: the
  background fill and the cursor markers and labels with their mode and fill colour, and each stroke with its mode,
  its colour (none for the eraser), its width and its polyline. This gives the command list a meaning: which strokes
  and cursors are painted, with which mode and colour, and in which order.
- `WhiteboardComponent`: class `Whiteboard`, the component's state with one method per handler and the redraw. Each
  handler is one atomic step.
- `IndexPage`: JavaScript's `trim`, the roster projection and its loop, and class `Index` holding the page's state.
- `Seqs` and `Wrappers`: sequence regrouping lemmas and `Option`.

The store, the change feed and the presence channels sit outside the model. What they deliver (an inserted row, a
delete, the load result, a snapshot) arrives as a method argument. What the component sends them (a stroke to
insert, a cursor position to publish) comes back as a method result. Clock readings are parameters too.

Where the specification and the code disagree, the model follows the code:

- The code appends every insert notification. The specification asks for an idempotent fold by stroke id and a
  re-sort by commit order. The model does neither, and `DuplicateInsertKept` shows that a repeated notification
  gives two strokes.
- The code's DELETE subscription has no room filter, so any delete notification empties the list. The
  specification speaks of clearing one room.
- After a failed load the code keeps the list as it was. The specification says the room starts with an empty
  history.

## Model

| member | source | states |
|---|---|---|
| StrokeLog.FromRows | src/components/Whiteboard.tsx:180-190 | the loaded list has one stroke per row, in the order returned, each built field by field from its row |
| StrokeLog.Apply | src/components/Whiteboard.tsx:90-191 | an insert appends exactly one stroke built from the row and keeps every earlier stroke; a delete empties the list; a load with an error or no data keeps the list; a load with data replaces it, field by field and in the order returned |
| StrokeLog.ReplayConcat | src/components/Whiteboard.tsx:99 | handling two batches of events is handling the second from the list the first left |
| StrokeLog.ReplayInserts | src/components/Whiteboard.tsx:99 | a run of inserts appends one stroke per notification in delivery order, whatever their ids, so the length grows by the number of notifications |
| StrokeLog.DuplicateInsertKept | src/components/Whiteboard.tsx:91-99 | the same notification delivered twice leaves two copies of the stroke: there is no de-duplication by id |
| StrokeLog.ReplayAfterDelete | src/components/Whiteboard.tsx:102-111 | after any delete the list depends only on the events that follow it |
| StrokeLog.InsertAfterDelete | src/components/Whiteboard.tsx:99-110 | an insert arriving after a delete leaves exactly that one stroke |
| StrokeLog.FailedLoadIgnored | src/components/Whiteboard.tsx:175-178 | a failed load changes nothing, wherever it falls in the event stream |
| StrokeLog.LoadResets | src/components/Whiteboard.tsx:180-191 | after a successful load the list is exactly the loaded rows, whatever came before |
| Cursors.IndexOf | src/components/Whiteboard.tsx:134 | finds the first position holding the key, and finds none exactly when the key is absent |
| Cursors.Get | src/components/Whiteboard.tsx:134 | a map lookup succeeds exactly when the key is present and yields an entry under that key |
| Cursors.Set | src/components/Whiteboard.tsx:134-141 | after `set`, the key maps to the new cursor and every other key's lookup is unchanged; a new key is appended at the end and an existing one keeps its position; distinct keys stay distinct |
| Cursors.CursorsFrom | src/components/Whiteboard.tsx:129-144 | visiting entries keeps the keys distinct and never adds the local user |
| Cursors.CursorsOf | src/components/Whiteboard.tsx:127-146 | the map a sync builds starts empty, has distinct keys and never contains the local user id |
| Cursors.BuildCursors | src/components/Whiteboard.tsx:127-144 | the `forEach` loop filling a fresh map computes exactly `CursorsOf` of the snapshot |
| Cursors.CursorsFromConcat | src/components/Whiteboard.tsx:129-144 | visiting two runs of entries is visiting the second from the map the first left |
| Cursors.CursorKeys | src/components/Whiteboard.tsx:130-135 | a user id is a key of the map exactly when some entry has a first presence with that id that is not the local user's |
| Cursors.LastEntryWins | src/components/Whiteboard.tsx:132-141 | the cursor stored under an id comes from the first presence of the last entry contributing that id: later entries overwrite |
| Cursors.OnlySelfYieldsNoCursors | src/components/Whiteboard.tsx:133 | when every first presence is the local user's, the map is empty |
| Cursors.EmptyEntryIgnored | src/components/Whiteboard.tsx:131 | an entry with an empty presence list contributes nothing, wherever it stands |
| Compositor.LineTos | src/components/Whiteboard.tsx:231-233 | one `lineTo` per point, in point order |
| Compositor.StrokeCmds | src/components/Whiteboard.tsx:215-236 | a stroke issues no command exactly when it has fewer than two points; a stroke never issues a fill, marker or label |
| Compositor.StrokesCmds | src/components/Whiteboard.tsx:207-237 | the stroke pass issues no fill, marker or label |
| Compositor.CursorsCmds | src/components/Whiteboard.tsx:240-248 | two commands per remote cursor, and commands 2i and 2i+1 are cursor i's, in map order |
| Compositor.CursorMarkerAndLabel | src/components/Whiteboard.tsx:241-247 | cursor i is a marker of radius 8 in its colour at its position, then its name at an offset of (+12, +4) |
| Compositor.InProgress | src/components/Whiteboard.tsx:207-214 | the in-progress stroke exists exactly when the buffer is non-empty; it has id "temp", the buffer, the current colour, size and tool, and the local user id |
| Compositor.Frame | src/components/Whiteboard.tsx:202-204 | every frame starts with the background fill in `#1e293b` |
| Compositor.StrokesCmdsConcat | src/components/Whiteboard.tsx:207-214 | strokes are drawn in list order: the commands of a concatenation are the concatenated commands |
| Compositor.FrameLayout | src/components/Whiteboard.tsx:202-248 | a frame is the background, then the committed strokes in list order, then the in-progress stroke exactly when the buffer is non-empty, then the cursors |
| Compositor.FrameCursorsLast | src/components/Whiteboard.tsx:202-248 | only the first command is a fill; every marker and label comes after every stroke command; the cursor part holds only markers and labels |
| Compositor.DrawnStrokeLayout | src/components/Whiteboard.tsx:217-236 | a stroke of n >= 2 points issues, in order: begin path, its width, its tool's mode (plus its colour unless it is the eraser), a move to point 0, n-1 line commands to points 1..n-1, stroke, and a reset to source-over |
| Compositor.StrokeColorRule | src/components/Whiteboard.tsx:222-227 | the eraser never sets a stroke colour; every other tool sets only its stroke's colour |
| Canvas.RunLineTos | src/components/Whiteboard.tsx:231-233 | the line commands extend the current path by exactly the points, in order, and paint nothing |
| Canvas.CursorMarks | src/components/Whiteboard.tsx:240-248 | two marks per cursor: its marker, then its label, both in the cursor's colour |
| Canvas.RunStrokeHead | src/components/Whiteboard.tsx:217-229 | a stroke's set-up selects its width and mode, sets its colour unless it erases, and starts the path at point 0 without painting |
| Canvas.RunStrokeTail | src/components/Whiteboard.tsx:235-236 | stroking leaves the stroke's mark and the mode returns to source-over |
| Canvas.RunStroke | src/components/Whiteboard.tsx:215-236 | a drawable stroke leaves exactly one mark: its polyline at its width, in destination-out for the eraser (no colour) and source-over with its colour otherwise; afterwards the mode is source-over |
| Canvas.RunStrokes | src/components/Whiteboard.tsx:207-237 | from source-over, the stroke pass leaves one mark per drawable stroke in list order, skips the short ones, and ends in source-over |
| Canvas.RunCursors | src/components/Whiteboard.tsx:240-248 | the cursor pass leaves a marker then a label per cursor, in the current mode; the label is filled in the cursor's colour, which its marker set as the fill style; the mode is unchanged |
| Canvas.FrameMarks | src/components/Whiteboard.tsx:202-248 | a frame paints the background, then the committed and in-progress drawable strokes in order, then every cursor in source-over mode, so no eraser stroke applies to a cursor; the frame ends in source-over |
| Canvas.PaintsConcat | src/components/Whiteboard.tsx:207-214 | the marks of a concatenation of stroke lists are the concatenated marks |
| WhiteboardComponent.Whiteboard.constructor | src/components/Whiteboard.tsx:50-53 | not drawing, with no strokes, no points and no remote cursors |
| WhiteboardComponent.Whiteboard.OnInsert | src/components/Whiteboard.tsx:90-100 | the list becomes `Apply` of the insert, which appends the row's stroke built by `FromRow` |
| WhiteboardComponent.Whiteboard.OnDelete | src/components/Whiteboard.tsx:109-111 | the list becomes empty |
| WhiteboardComponent.Whiteboard.OnLoad | src/components/Whiteboard.tsx:175-191 | the list becomes `Apply` of the load result: kept on error or no data, otherwise replaced |
| WhiteboardComponent.Whiteboard.OnPresenceSync | src/components/Whiteboard.tsx:125-146 | the cursor map becomes `CursorsOf` of the snapshot, independent of the previous map |
| WhiteboardComponent.Whiteboard.MouseDown | src/components/Whiteboard.tsx:265-269 | drawing is on and the buffer is exactly the pressed point |
| WhiteboardComponent.Whiteboard.MouseMove | src/components/Whiteboard.tsx:271-289 | a cursor at the point is published every time; the point is appended to the buffer only while drawing |
| WhiteboardComponent.Whiteboard.MouseUp | src/components/Whiteboard.tsx:291-316 | drawing ends; nothing is submitted exactly when not drawing or the buffer is empty, and then the buffer is kept; otherwise one row is submitted with the buffer and the current colour, size and tool, and the buffer is cleared whatever the store answers |
| WhiteboardComponent.Whiteboard.Redraw | src/components/Whiteboard.tsx:195-249 | the frame is the background, the committed strokes, the in-progress stroke exactly while the point buffer is non-empty, then the cursors |
| IndexPage.LeadingBlanks | src/pages/Index.tsx:83 | counts the whitespace the name starts with: all counted characters are whitespace and the next one is not |
| IndexPage.TrailingBlanks | src/pages/Index.tsx:83 | counts the whitespace the name ends with, down to a lower bound; the character before the run is not whitespace |
| IndexPage.Trim | src/pages/Index.tsx:83 | the result is the slice of the name between a whitespace prefix and a whitespace suffix, and it neither starts nor ends with whitespace |
| IndexPage.BlankIffAllWhitespace | src/pages/Index.tsx:83 | a name trims to nothing exactly when it is all whitespace |
| IndexPage.UserOf | src/pages/Index.tsx:49-58 | an entry yields a user exactly when its presence list is non-empty and its first presence has a non-empty id; the fields are copied from that presence |
| IndexPage.UsersOf | src/pages/Index.tsx:46-60 | at most one user per snapshot entry |
| IndexPage.BuildUsers | src/pages/Index.tsx:46-60 | the `forEach` loop pushing onto a fresh list computes exactly `UsersOf` of the snapshot |
| IndexPage.UsersConcat | src/pages/Index.tsx:48-60 | the list follows snapshot key order: the list of a concatenated snapshot is the concatenation of the lists |
| IndexPage.UserListed | src/pages/Index.tsx:48-60 | a user is listed exactly when some entry yields it; the local participant is not filtered out |
| IndexPage.Index.constructor | src/pages/Index.tsx:13-36 | given a colour from the palette: empty name, not joined, tool "pen", colour "#06b6d4", size 4, no active users |
| IndexPage.Index.SetUserName | src/pages/Index.tsx:131 | the name becomes the typed value |
| IndexPage.Index.SetTool | src/pages/Index.tsx:174-175 | the current tool becomes the selected one |
| IndexPage.Index.SetColor | src/pages/Index.tsx:176-177 | the current colour becomes the selected one |
| IndexPage.Index.SetBrushSize | src/pages/Index.tsx:178-179 | the brush size becomes the selected one |
| IndexPage.Index.HandleJoin | src/pages/Index.tsx:82-89 | the join is accepted exactly when the trimmed name is non-empty; an accepted join sets the joined flag, a refused one leaves it as it was |
| IndexPage.Index.OnPresenceSync | src/pages/Index.tsx:40-62 | once joined, a sync replaces the list with `UsersOf` of the snapshot; before joining the page does not listen, so the list is kept |

## Left out

- The transport is not modelled: the store queries, inserts and deletes, channel creation and subscription,
  `track`, `presenceState` and `removeChannel`. Their deliveries are method arguments and their requests are
  method results.
- Async windows, effect scheduling and subscription lifecycle are not modelled; each handler is one atomic step.
  Mouse-up clears the buffer only after its insert request resolves, so a mouse-down arriving in that window could
  have its new buffer cleared. The model, with no interleaving, does not capture this. `Redraw` is keyed on the
  buffer, as the code is, not on the drawing flag.
- The initial track call that publishes (0, 0) on subscription is a transport action and is not modelled.
- Canvas and DOM geometry are not modelled (`updateCanvasSize`, which resizes the canvas, and `getCoordinates`,
  which scales mouse positions); points are inputs.
- Pixels are not modelled. The canvas interpreter records what each painting call paints, with which mode and
  colour, but not the resulting bitmap. Line cap, line join and font are not part of its context.
- `BeginPath` stands for `beginPath()` together with the round line cap and join set just after it. The label font
  (12px) is not modelled and is folded into `Text`.
- The random user id and colour are constructor parameters of `Index`. Its colour must be one of `Palette`, the
  colours the page draws from; which one is not modelled.
- The redraw's early return when the canvas or its 2D context is missing is not modelled: the canvas is mounted
  before any frame is drawn, so `Redraw` always yields a frame.
- The `console.error` logging of a failed load and of a failed insert is not modelled; it changes no state.
- Toasts, the clipboard copy and all JSX layout are not modelled.
- `src/components/Toolbar.tsx` and `src/components/UserPresence.tsx` are display bindings and are not part of this
  model. The page's state setters they call are modelled (`SetTool`, `SetColor`, `SetBrushSize`).
- The clear button's delete request is store I/O. The delete notification it causes is `OnDelete`.
- The cursor channel reference is assumed set whenever mouse-move runs. It is assigned when the component mounts,
  before any mouse event, so `MouseMove` always publishes.
- A presence list that is `null`, a `user_id` that is not a string, and other loosely typed payload fields are not
  modelled. Presence lists are sequences, so the `presences &&` guard is the non-empty test. A truthy `user_id` is a
  non-empty string.
- `IndexPage.Trim` works on code points. JavaScript strings are UTF-16; every character `trim` removes is a single
  UTF-16 unit, so the result is the same for well-formed strings.
- Cursor timestamps and coordinates are copied, never compared; numbers are `real` and timestamps `int`, with no
  floating-point rounding.
