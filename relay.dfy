/** The ledger side of the socket handlers in server/src/index.ts. Socket
    rooms, delivery and logging are transport; what is kept is which ledger
    operation each handler runs and what it sends back. */
module Relay {
  import opened Segments
  import opened Rooms

  /** `join-room`: send the joining connection the full snapshot of the room
      (creating the room when it is new). */
  method OnJoin(ledger: Ledger, roomId: string) returns (history: seq<Segment>)
    modifies ledger
    ensures ledger.rooms == EnsureRoom(old(ledger.rooms), roomId)
    ensures history == Flatten(RoomOf(old(ledger.rooms), roomId).strokes)
  {
    history := ledger.GetAllSegments(roomId);
  }

  /** `stroke-batch`: file every segment of the batch in array order, then
      relay the batch, unchanged, to the other members. */
  method OnStrokeBatch(ledger: Ledger, roomId: string, senderId: string, segments: seq<Segment>)
    returns (relayed: seq<Segment>)
    modifies ledger
    ensures RoomOf(ledger.rooms, roomId) == AddBatch(RoomOf(old(ledger.rooms), roomId), senderId, segments)
    ensures |segments| == 0 ==> ledger.rooms == old(ledger.rooms)
    ensures |segments| > 0 ==> roomId in ledger.rooms
    ensures OthersUnchanged(old(ledger.rooms), ledger.rooms, roomId)
    ensures relayed == segments
  {
    ledger.ApplyBatch(roomId, senderId, segments);
    relayed := segments;
  }

  /** `undo`: undo the sender's last live stroke, then send every member the
      full snapshot of the room (a removal is not expressible as an append). */
  method OnUndo(ledger: Ledger, roomId: string, senderId: string) returns (sync: seq<Segment>)
    modifies ledger
    ensures roomId in ledger.rooms
    ensures ledger.rooms[roomId] == Undo(RoomOf(old(ledger.rooms), roomId), senderId)
    ensures OthersUnchanged(old(ledger.rooms), ledger.rooms, roomId)
    ensures sync == Flatten(ledger.rooms[roomId].strokes)
  {
    ledger.UndoLast(roomId, senderId);
    sync := ledger.GetAllSegments(roomId);
  }

  /** `redo`: redo the room's most recently undone stroke, then send every
      member the full snapshot of the room. */
  method OnRedo(ledger: Ledger, roomId: string) returns (sync: seq<Segment>)
    modifies ledger
    ensures roomId in ledger.rooms
    ensures ledger.rooms[roomId] == Redo(RoomOf(old(ledger.rooms), roomId))
    ensures OthersUnchanged(old(ledger.rooms), ledger.rooms, roomId)
    ensures sync == Flatten(ledger.rooms[roomId].strokes)
  {
    ledger.RedoLast(roomId);
    sync := ledger.GetAllSegments(roomId);
  }
}
