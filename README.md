# Collaborative canvas: stroke synchronisation and the room ledger

This project models the core of a shared drawing canvas. On the client, each
pointer move during a gesture produces a line segment. Segments are buffered
and flushed in batches on a timer. On the server, a ledger keeps each room's
strokes and redo stack. Undo and redo change the ledger and are followed by a
full snapshot of the room.

Modules:

- `Optional` is an `Option` datatype.
- `Segments` holds `Point` and `Segment`, the wire unit of `client/src/type.ts`.
- `Rooms` models `server/src/rooms.ts`. `Stroke` and `Room` are values, and
  the value-level functions `AddSegmentTo`, `Undo`, `Redo`, `Flatten` and
  `AddBatch` specify the ledger operations. Lemmas state what these functions
  do. The class `Ledger` owns the module-level `rooms` map and updates it in
  place. Each of its methods is proved against the value-level function it
  implements.
  `UndoLast` keeps the source's backward scan with an early return.
- `Relay` models what the handlers of `server/src/index.ts` do to the ledger,
  and what they send back.
- `Client` models `client/src/App.tsx`. The class `CanvasClient` holds the
  pending-segment buffer, the gesture in progress, the canvas as a display
  list of painted segments, and the remote-cursor map. Two ghost fields record
  every segment ever recorded and every batch ever emitted. The class
  invariant is `Valid()`, and it has two parts. The first, `BufferValid()`,
  says the emitted batches followed by the buffer are exactly the recorded
  segments, and that no emitted batch is empty. The second says a gesture in
  progress has at least its starting point, and the last recorded segments
  are exactly `Chain` of that gesture. `Chain` is the end-to-start chain of
  segments between its consecutive points. `StartDraw`, `Draw`, `EndDraw` and
  `Flush` require and preserve `Valid()`, and `Record` preserves
  `BufferValid()`. So across any interleaving of draws and flush ticks,
  nothing is lost, duplicated or reordered, and the gesture's segments stay
  chained.

`addSegment` searches only the live strokes (rooms.ts:33), so a segment whose
stroke sits on the redo stack opens a second stroke with the same id;
`AddSegmentDuplicatesUndoneId` states this.

## Model

| member | source | states |
|---|---|---|
| `Rooms.EnsureRoom` | server/src/rooms.ts:18-24 | the map after `getRoom` holds the id; a known id leaves the map unchanged, an unseen one gets an empty room, and no other room changes |
| `Rooms.FindStroke` | server/src/rooms.ts:33 | the result is the first live stroke with the given id, or none when no live stroke has it |
| `Rooms.LastStrokeBy` | server/src/rooms.ts:50-51 | the result is the highest-index live stroke of the user, or none when the user has no live stroke |
| `Rooms.FlattenAppend` | server/src/rooms.ts:69-71 | the snapshot of two runs of strokes is the snapshot of the first followed by that of the second |
| `Rooms.FlattenAround` | server/src/rooms.ts:70 | the snapshot is the segments before stroke `i`, then stroke `i`'s segments, then those after it |
| `Rooms.AddSegmentToLiveStroke` | server/src/rooms.ts:33-44 | for the first live stroke with the segment's id: the segment is appended to it; the stroke count, every other stroke and the redo stack are unchanged; in the snapshot the segment lands right after that stroke's last segment |
| `Rooms.AddSegmentToNewStroke` | server/src/rooms.ts:33-42 | with no live stroke of that id, a stroke `{strokeId, userId, [segment]}` is appended at the end; the redo stack is unchanged; the new snapshot is the old one followed by the segment |
| `Rooms.AddSegmentDuplicatesUndoneId` | server/src/rooms.ts:33-41 | when the segment's stroke is on the redo stack and not live, afterwards a live stroke and an undone stroke carry the same id |
| `Rooms.UndoTakesLastOwnStroke` | server/src/rooms.ts:50-56 | undo removes exactly the user's last live stroke, keeps the other live strokes in order, and pushes that stroke on top of the redo stack |
| `Rooms.UndoWithoutOwnStrokeIsNoOp` | server/src/rooms.ts:50-57 | a user without live strokes leaves the room unchanged |
| `Rooms.UndoSparesOtherUsers` | server/src/rooms.ts:50-55 | every stroke of another user occurs among the live strokes as often after undo as before |
| `Rooms.UndoConservesStrokes` | server/src/rooms.ts:52-53 | undo keeps the multiset of live and undone strokes together |
| `Rooms.RedoConservesStrokes` | server/src/rooms.ts:62-65 | redo keeps the multiset of live and undone strokes together |
| `Rooms.RedoMovesTopToEnd` | server/src/rooms.ts:62-65 | with an empty redo stack nothing changes; otherwise its top is popped and appended to the live strokes whoever drew it, and the snapshot gains that stroke's segments at its end |
| `Rooms.UndoThenRedo` | server/src/rooms.ts:47-66 | undo then redo gives back the redo stack and the live strokes with the undone one moved last; the snapshot is the old one with that stroke's segments moved to the end |
| `Rooms.OneSegmentUndoRedo` | server/src/rooms.ts:26-66 | one segment in an empty room makes one stroke; undoing it empties the snapshot and parks it on the redo stack; redo gives back the room as it was |
| `Rooms.BatchAfterPrefix` | server/src/index.ts:68-70 | filing a batch is filing its first `p` segments and then the rest |
| `Rooms.BatchIntoLiveStroke` | server/src/index.ts:68-70 | a batch of one live stroke's segments extends that stroke by the whole batch in order; other strokes and the redo stack are unchanged |
| `Rooms.BatchIntoNewStroke` | server/src/index.ts:68-70 | a non-empty batch of one non-live stroke becomes a single new last stroke holding the batch in order; the snapshot gains the batch at its end |
| `Rooms.Ledger.constructor` | server/src/rooms.ts:16 | the ledger starts with no rooms |
| `Rooms.Ledger.GetRoom` | server/src/rooms.ts:18-24 | returns the stored room, or a new empty one while recording it; a second call for the same id changes nothing |
| `Rooms.Ledger.AddSegment` | server/src/rooms.ts:26-45 | room `roomId` becomes `AddSegmentTo` of its old value; no other room changes or is created |
| `Rooms.Ledger.UndoLast` | server/src/rooms.ts:47-57 | room `roomId` becomes `Undo` of its old value; no other room changes |
| `Rooms.Ledger.RedoLast` | server/src/rooms.ts:59-66 | room `roomId` becomes `Redo` of its old value; no other room changes |
| `Rooms.Ledger.GetAllSegments` | server/src/rooms.ts:69-71 | returns the concatenated segments of the live strokes; the only change is the empty room made for an unseen id, whose snapshot is empty |
| `Rooms.Ledger.ApplyBatch` | server/src/index.ts:68-70 | the room becomes the in-order fold of `addSegment` over the batch; an empty batch creates no room; no other room changes |
| `Relay.OnJoin` | server/src/index.ts:24-29 | the joining connection receives the room's full snapshot |
| `Relay.OnStrokeBatch` | server/src/index.ts:65-76 | files the batch as `ApplyBatch` does and relays it unchanged |
| `Relay.OnUndo` | server/src/index.ts:47-52 | undoes the sender's last stroke, then sends the full snapshot of the new room state |
| `Relay.OnRedo` | server/src/index.ts:39-44 | redoes the room's last undone stroke, then sends the full snapshot of the new room state |
| `Client.ChainAt` | client/src/App.tsx:162-173 | a gesture of `n` points has produced `n - 1` segments, and segment `i` joins points `i` and `i + 1` in the gesture's style |
| `Client.ChainIsConnected` | client/src/App.tsx:147-173 | every segment of a gesture copies its stroke id, colour, width and eraser flag, and each one ends where the next one starts |
| `Client.CanvasClient.constructor` | client/src/App.tsx:31-41 | no gesture, empty buffer, empty canvas, no cursors, nothing recorded or emitted |
| `Client.CanvasClient.AttachContext` | client/src/App.tsx:89-96 | the drawing context becomes available and nothing else changes |
| `Client.CanvasClient.Record` | client/src/App.tsx:176 | the segment is appended to the end of the buffer and nothing is emitted |
| `Client.CanvasClient.Flush` | client/src/App.tsx:119-128 | an empty buffer emits nothing; otherwise the whole buffer is emitted in order as one non-empty batch and the buffer is emptied; the no-loss invariant is kept |
| `Client.CanvasClient.StartDraw` | client/src/App.tsx:144-154 | the gesture becomes a one-point stroke with the fresh id and current style, with the eraser flag set exactly for the eraser tool |
| `Client.CanvasClient.Draw` | client/src/App.tsx:156-183 | with no gesture or no context nothing changes; otherwise the point is appended, and the segment from the previous last point to it, in the gesture's style, is painted and buffered |
| `Client.CanvasClient.EndDraw` | client/src/App.tsx:186-188 | the gesture is cleared and nothing else changes |
| `Client.CanvasClient.PaintRemote` | client/src/App.tsx:218-235 | the segment is painted on top of the canvas |
| `Client.CanvasClient.PaintRemoteBatch` | client/src/App.tsx:71-73 | the batch's segments are painted on top of the canvas in order |
| `Client.CanvasClient.Redraw` | client/src/App.tsx:237-244 | afterwards the canvas holds exactly the snapshot, whatever it held before, so redrawing twice with one snapshot gives what redrawing once does |
| `Client.CanvasClient.MoveCursor` | client/src/App.tsx:52-57 | only the cursor entry of `userId` is overwritten |

## Left out

- Transport: socket.io rooms, `emit` targets and delivery, express/http/CORS, `server.listen`, logging. The handlers' fan-out targets are not modelled: sender excluded for segments and batches, all members for `canvas-sync`. A handler's value sent back stands for its emission.
- The server's `stroke-segment` handler (server/src/index.ts:31-37) is `Ledger.AddSegment` followed by a relay. Only the ledger part is modelled.
- The server's `cursor-move` relay (server/src/index.ts:54-63) and the `cursor-move` emission in `draw` (client/src/App.tsx:178-182): they are pass-through I/O with no ledger effect.
- Canvas 2D rendering: composite operation, stroke style, `moveTo`/`lineTo`/`stroke`, `clearRect`. Painting is appending a segment to a display list. An eraser segment is painted like any other, and only its `isEraser` flag marks the difference.
- The resize handler and `devicePixelRatio` (floating-point pixel arithmetic). Setting `canvas.width` and `canvas.height` on resize (client/src/App.tsx:103-104) also wipes the canvas bitmap. The model's `display` keeps its segments across a resize, so it does not show that loss.
- `getPoint`: coordinates are integers, since the source's floats need no arithmetic here.
- `crypto.randomUUID()`: the fresh stroke id is a parameter of `StartDraw`.
- The 16 ms `setInterval`: each tick is an explicit `Flush` call, and the timing itself is not modelled.
- React state and UI: `tool`, `color` and `width` are parameters of `StartDraw`. Hooks, listener registration and removal, buttons and JSX are not modelled. The undo and redo buttons only emit a request.
- Concurrency: handlers run to completion one at a time, so the ledger and the client are sequential objects receiving calls.
- `Client.CanvasClient.PaintRemote`, `PaintRemoteBatch` and `Redraw` require `hasContext`. The source dereferences `ctxRef.current!` there and would fail without a context.
- Malformed payloads: the server types a segment as `any` (server/src/rooms.ts:1), and `payload.segments.forEach` (server/src/index.ts:68) throws when the payload is not an array. The model accepts only well-formed `Segment` values and batches.
- The room map is never evicted. The model has no removal either.
