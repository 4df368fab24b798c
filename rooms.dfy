/** The server's authoritative per-room drawing history (server/src/rooms.ts).

    The first half of the module describes one room as a value and proves what
    each ledger operation does to it; the class `Ledger` at the end holds the
    process-wide map from room id to room and updates it in place, each method
    proved against the value-level function it implements. */
module Rooms {
  import opened Optional
  import opened Segments

  /** A stroke as the server keeps it: the id chosen by the drawing client,
      the connection that sent its first segment, and its segments in arrival
      order. */
  datatype Stroke = Stroke(id: string, userId: string, segments: seq<Segment>)

  /** The live strokes in order of first arrival, and the strokes undone so
      far, the most recently undone last. */
  datatype Room = Room(strokes: seq<Stroke>, redoStack: seq<Stroke>)

  const EmptyRoom := Room([], [])

  /** The room `getRoom` hands out for `roomId`: the stored one, or a fresh
      empty room when the id has not been seen yet. */
  function RoomOf(rooms: map<string, Room>, roomId: string): Room
  {
    if roomId in rooms then rooms[roomId] else EmptyRoom
  }

  /** The map after `getRoom(roomId)`: unchanged when the id is known,
      otherwise extended with an empty room for it. */
  function EnsureRoom(rooms: map<string, Room>, roomId: string): (r: map<string, Room>)
    ensures roomId in r && r[roomId] == RoomOf(rooms, roomId)
    ensures roomId in rooms ==> r == rooms
    ensures roomId !in rooms ==> r[roomId] == EmptyRoom
    ensures OthersUnchanged(rooms, r, roomId)
  {
    if roomId in rooms then rooms else rooms[roomId := EmptyRoom]
  }

  /** Every room other than `roomId` is the same before and after, and no
      room other than `roomId` was created or dropped. */
  predicate OthersUnchanged(before: map<string, Room>, after: map<string, Room>, roomId: string)
  {
    after - {roomId} == before - {roomId}
  }

  /** The index of the first live stroke whose id is `id`, as
      `strokes.find((s) => s.id === id)` locates it. */
  function FindStroke(strokes: seq<Stroke>, id: string): (r: Option<nat>)
    ensures r.Some? ==> r.value < |strokes| && strokes[r.value].id == id
    ensures r.Some? ==> forall j :: 0 <= j < r.value ==> strokes[j].id != id
    ensures r.None? ==> forall j :: 0 <= j < |strokes| ==> strokes[j].id != id
  {
    if |strokes| == 0 then None
    else if strokes[0].id == id then Some(0)
    else match FindStroke(strokes[1..], id)
      case None => None
      case Some(k) => Some(k + 1)
  }

  /** The index of the last live stroke drawn by `userId`, the one the
      backward scan of `undoLast` stops at. */
  function LastStrokeBy(strokes: seq<Stroke>, userId: string): (r: Option<nat>)
    ensures r.Some? ==> r.value < |strokes| && strokes[r.value].userId == userId
    ensures r.Some? ==> forall j :: r.value < j < |strokes| ==> strokes[j].userId != userId
    ensures r.None? ==> forall j :: 0 <= j < |strokes| ==> strokes[j].userId != userId
  {
    if |strokes| == 0 then None
    else if strokes[|strokes| - 1].userId == userId then Some(|strokes| - 1)
    else LastStrokeBy(strokes[..|strokes| - 1], userId)
  }

  /** `addSegment` on one room: the segment goes to the first live stroke with
      its stroke id, or to a new stroke owned by `userId` appended at the end.
      The redo stack is not searched. */
  function AddSegmentTo(room: Room, userId: string, segment: Segment): Room
  {
    match FindStroke(room.strokes, segment.strokeId)
    case Some(i) =>
      var s := room.strokes[i];
      room.(strokes := room.strokes[i := s.(segments := s.segments + [segment])])
    case None =>
      room.(strokes := room.strokes + [Stroke(segment.strokeId, userId, [segment])])
  }

  /** `undoLast` on one room: the last live stroke of `userId` moves to the top
      of the redo stack; without one the room stays as it is. */
  function Undo(room: Room, userId: string): Room
  {
    match LastStrokeBy(room.strokes, userId)
    case None => room
    case Some(i) =>
      Room(room.strokes[..i] + room.strokes[i + 1..], room.redoStack + [room.strokes[i]])
  }

  /** `redoLast` on one room: the top of the redo stack, whoever drew it, is
      appended to the live strokes; with an empty stack nothing happens. */
  function Redo(room: Room): Room
  {
    if |room.redoStack| == 0 then room
    else
      var top := room.redoStack[|room.redoStack| - 1];
      Room(room.strokes + [top], room.redoStack[..|room.redoStack| - 1])
  }

  /** `getAllSegments`: the segments of the live strokes, stroke after stroke. */
  function Flatten(strokes: seq<Stroke>): seq<Segment>
  {
    if |strokes| == 0 then [] else strokes[0].segments + Flatten(strokes[1..])
  }

  /** The relay's `stroke-batch` handler on one room: `addSegment` for each
      segment of the batch, in array order. */
  function AddBatch(room: Room, userId: string, segments: seq<Segment>): Room
  {
    if |segments| == 0 then room
    else
      var n := |segments| - 1;
      AddSegmentTo(AddBatch(room, userId, segments[..n]), userId, segments[n])
  }

  // ---------------------------------------------------------------------
  // The snapshot

  lemma {:induction false} FlattenAppend(a: seq<Stroke>, b: seq<Stroke>)
    ensures Flatten(a + b) == Flatten(a) + Flatten(b)
  {
    if |a| == 0 {
      assert a + b == b;
    } else {
      assert (a + b)[1..] == a[1..] + b;
      FlattenAppend(a[1..], b);
    }
  }

  /** The snapshot of strokes split around position `i`. */
  lemma FlattenAround(strokes: seq<Stroke>, i: nat)
    requires i < |strokes|
    ensures Flatten(strokes) == Flatten(strokes[..i]) + strokes[i].segments + Flatten(strokes[i + 1..])
  {
    assert strokes == strokes[..i] + strokes[i..];
    FlattenAppend(strokes[..i], strokes[i..]);
    assert strokes[i..][1..] == strokes[i + 1..];
  }

  // ---------------------------------------------------------------------
  // addSegment

  /** A segment of a live stroke is appended to that stroke (the first live
      one with its id); the number of strokes, every other stroke and the
      redo stack stay as they are, and in the snapshot the segment lands
      right after the stroke's last segment. */
  lemma AddSegmentToLiveStroke(room: Room, userId: string, segment: Segment, i: nat)
    requires i < |room.strokes| && room.strokes[i].id == segment.strokeId
    requires forall j :: 0 <= j < i ==> room.strokes[j].id != segment.strokeId
    ensures var r := AddSegmentTo(room, userId, segment);
      && |r.strokes| == |room.strokes|
      && r.strokes[i] == room.strokes[i].(segments := room.strokes[i].segments + [segment])
      && (forall j :: 0 <= j < |r.strokes| && j != i ==> r.strokes[j] == room.strokes[j])
      && r.redoStack == room.redoStack
      && Flatten(r.strokes)
         == Flatten(room.strokes[..i]) + room.strokes[i].segments + [segment] + Flatten(room.strokes[i + 1..])
  {
    var r := AddSegmentTo(room, userId, segment);
    FlattenAround(r.strokes, i);
    assert r.strokes[..i] == room.strokes[..i];
    assert r.strokes[i + 1..] == room.strokes[i + 1..];
  }

  /** A segment whose stroke id matches no live stroke opens a new stroke owned
      by the sender at the end of `strokes`; the redo stack stays as it is and
      the snapshot gains exactly that segment at its end. */
  lemma AddSegmentToNewStroke(room: Room, userId: string, segment: Segment)
    requires forall j :: 0 <= j < |room.strokes| ==> room.strokes[j].id != segment.strokeId
    ensures var r := AddSegmentTo(room, userId, segment);
      && r.strokes == room.strokes + [Stroke(segment.strokeId, userId, [segment])]
      && r.redoStack == room.redoStack
      && Flatten(r.strokes) == Flatten(room.strokes) + [segment]
  {
    var r := AddSegmentTo(room, userId, segment);
    FlattenAppend(room.strokes, [Stroke(segment.strokeId, userId, [segment])]);
    assert Flatten([Stroke(segment.strokeId, userId, [segment])]) == [segment];
  }

  /** As written, a segment whose stroke currently sits on the redo stack
      does not revive it: afterwards a live stroke and an undone stroke carry
      the same id. */
  lemma AddSegmentDuplicatesUndoneId(room: Room, userId: string, segment: Segment, k: nat)
    requires forall j :: 0 <= j < |room.strokes| ==> room.strokes[j].id != segment.strokeId
    requires k < |room.redoStack| && room.redoStack[k].id == segment.strokeId
    ensures var r := AddSegmentTo(room, userId, segment);
      && r.strokes[|r.strokes| - 1].id == segment.strokeId
      && r.redoStack[k].id == segment.strokeId
  {
  }

  // ---------------------------------------------------------------------
  // undoLast and redoLast

  /** Undo takes exactly the last live stroke of the caller: it leaves the
      live strokes in their relative order without it and puts it on top of
      the redo stack. */
  lemma UndoTakesLastOwnStroke(room: Room, userId: string, i: nat)
    requires i < |room.strokes| && room.strokes[i].userId == userId
    requires forall j :: i < j < |room.strokes| ==> room.strokes[j].userId != userId
    ensures Undo(room, userId)
         == Room(room.strokes[..i] + room.strokes[i + 1..], room.redoStack + [room.strokes[i]])
  {
  }

  /** A caller without live strokes cannot undo anybody else's. */
  lemma UndoWithoutOwnStrokeIsNoOp(room: Room, userId: string)
    requires forall j :: 0 <= j < |room.strokes| ==> room.strokes[j].userId != userId
    ensures Undo(room, userId) == room
  {
  }

  /** Undo never touches a stroke of another user: each of them occurs among
      the live strokes as often afterwards as before. */
  lemma UndoSparesOtherUsers(room: Room, userId: string, s: Stroke)
    requires s.userId != userId
    ensures multiset(Undo(room, userId).strokes)[s] == multiset(room.strokes)[s]
  {
    match LastStrokeBy(room.strokes, userId)
    case None =>
    case Some(i) =>
      var t := room.strokes;
      assert t == t[..i] + [t[i]] + t[i + 1..];
      assert multiset(t) == multiset(t[..i]) + multiset{t[i]} + multiset(t[i + 1..]);
      assert t[i] != s;
  }

  /** Undo only moves a stroke from the live strokes to the redo stack: the
      strokes held by the room, live or undone, stay the same multiset. */
  lemma UndoConservesStrokes(room: Room, userId: string)
    ensures var u := Undo(room, userId);
      multiset(u.strokes) + multiset(u.redoStack) == multiset(room.strokes) + multiset(room.redoStack)
  {
    var found := LastStrokeBy(room.strokes, userId);
    if found.Some? {
      var t, i := room.strokes, found.value;
      assert t == t[..i] + [t[i]] + t[i + 1..];
      calc {
        multiset(t);
        multiset(t[..i] + [t[i]] + t[i + 1..]);
        multiset(t[..i] + t[i + 1..]) + multiset{t[i]};
      }
    }
  }

  /** Redo only moves a stroke from the redo stack back to the live strokes:
      the strokes held by the room stay the same multiset. */
  lemma RedoConservesStrokes(room: Room)
    ensures var r := Redo(room);
      multiset(r.strokes) + multiset(r.redoStack) == multiset(room.strokes) + multiset(room.redoStack)
  {
    if |room.redoStack| > 0 {
      var st := room.redoStack;
      assert st == st[..|st| - 1] + [st[|st| - 1]];
    }
  }

  /** Redo on an empty stack changes nothing; otherwise it moves the top of
      the stack to the end of the live strokes, whichever user drew it. */
  lemma RedoMovesTopToEnd(room: Room)
    ensures |room.redoStack| == 0 ==> Redo(room) == room
    ensures |room.redoStack| > 0 ==>
      var n := |room.redoStack| - 1;
      && Redo(room).strokes == room.strokes + [room.redoStack[n]]
      && Redo(room).redoStack == room.redoStack[..n]
      && Flatten(Redo(room).strokes) == Flatten(room.strokes) + room.redoStack[n].segments
  {
    if |room.redoStack| > 0 {
      var top := room.redoStack[|room.redoStack| - 1];
      FlattenAppend(room.strokes, [top]);
      assert Flatten([top]) == top.segments;
    }
  }

  /** Undo followed by redo restores the redo stack and every live stroke,
      except that the undone stroke now comes last; so the snapshot is the
      old one with that stroke's segments moved to the end. */
  lemma UndoThenRedo(room: Room, userId: string, i: nat)
    requires i < |room.strokes| && room.strokes[i].userId == userId
    requires forall j :: i < j < |room.strokes| ==> room.strokes[j].userId != userId
    ensures var r := Redo(Undo(room, userId));
      && r == Room(room.strokes[..i] + room.strokes[i + 1..] + [room.strokes[i]], room.redoStack)
      && Flatten(r.strokes)
         == Flatten(room.strokes[..i]) + Flatten(room.strokes[i + 1..]) + room.strokes[i].segments
  {
    UndoTakesLastOwnStroke(room, userId, i);
    var rest := room.strokes[..i] + room.strokes[i + 1..];
    assert (room.redoStack + [room.strokes[i]])[..|room.redoStack|] == room.redoStack;
    FlattenAppend(rest, [room.strokes[i]]);
    FlattenAppend(room.strokes[..i], room.strokes[i + 1..]);
    assert Flatten([room.strokes[i]]) == room.strokes[i].segments;
  }

  /** A room whose only stroke is one segment of `userId`: undo empties the
      snapshot and parks the stroke on the redo stack, and redo gives back the
      room as it was. */
  lemma OneSegmentUndoRedo(userId: string, segment: Segment)
    ensures var drawn := AddSegmentTo(EmptyRoom, userId, segment);
      && drawn == Room([Stroke(segment.strokeId, userId, [segment])], [])
      && Flatten(drawn.strokes) == [segment]
      && Undo(drawn, userId) == Room([], drawn.strokes)
      && Flatten(Undo(drawn, userId).strokes) == []
      && Redo(Undo(drawn, userId)) == drawn
  {
  }

  // ---------------------------------------------------------------------
  // Batches

  /** A batch of segments of one live stroke (the first live one with that
      id) extends that stroke by the whole batch, in order, and leaves the
      other strokes and the redo stack alone. */
  lemma {:induction false} BatchIntoLiveStroke(room: Room, userId: string, segments: seq<Segment>, i: nat)
    requires i < |room.strokes|
    requires forall j :: 0 <= j < i ==> room.strokes[j].id != room.strokes[i].id
    requires forall k :: 0 <= k < |segments| ==> segments[k].strokeId == room.strokes[i].id
    ensures var r := AddBatch(room, userId, segments);
      && |r.strokes| == |room.strokes|
      && r.strokes[i] == room.strokes[i].(segments := room.strokes[i].segments + segments)
      && (forall j :: 0 <= j < |r.strokes| && j != i ==> r.strokes[j] == room.strokes[j])
      && r.redoStack == room.redoStack
  {
    if |segments| > 0 {
      var n := |segments| - 1;
      BatchIntoLiveStroke(room, userId, segments[..n], i);
      var mid := AddBatch(room, userId, segments[..n]);
      AddSegmentToLiveStroke(mid, userId, segments[n], i);
      assert segments[..n] + [segments[n]] == segments;
    }
  }

  /** A non-empty batch of segments of one stroke that is not live becomes a
      single new stroke owned by the sender, holding the whole batch in
      order, at the end of `strokes`; the snapshot gains the batch at its end. */
  lemma {:induction false} BatchIntoNewStroke(room: Room, userId: string, segments: seq<Segment>, id: string)
    requires |segments| > 0
    requires forall k :: 0 <= k < |segments| ==> segments[k].strokeId == id
    requires forall j :: 0 <= j < |room.strokes| ==> room.strokes[j].id != id
    ensures var r := AddBatch(room, userId, segments);
      && r.strokes == room.strokes + [Stroke(id, userId, segments)]
      && r.redoStack == room.redoStack
      && Flatten(r.strokes) == Flatten(room.strokes) + segments
  {
    var first := AddBatch(room, userId, segments[..1]);
    assert segments[..1][..0] == [] && segments[..1][0] == segments[0];
    assert AddBatch(room, userId, []) == room;
    AddSegmentToNewStroke(room, userId, segments[0]);
    assert first.strokes == room.strokes + [Stroke(id, userId, [segments[0]])];
    var rest := segments[1..];
    var i := |room.strokes|;
    BatchAfterPrefix(room, userId, segments, 1);
    BatchIntoLiveStroke(first, userId, rest, i);
    var r := AddBatch(room, userId, segments);
    assert [segments[0]] + rest == segments;
    assert r.strokes == room.strokes + [Stroke(id, userId, segments)];
    FlattenAppend(room.strokes, [Stroke(id, userId, segments)]);
    assert Flatten([Stroke(id, userId, segments)]) == segments;
  }

  /** A batch is its first `p` segments followed by the rest. */
  lemma {:induction false} BatchAfterPrefix(room: Room, userId: string, segments: seq<Segment>, p: nat)
    requires p <= |segments|
    ensures AddBatch(room, userId, segments)
         == AddBatch(AddBatch(room, userId, segments[..p]), userId, segments[p..])
  {
    if |segments| > p {
      var n := |segments| - 1;
      BatchAfterPrefix(room, userId, segments[..n], p);
      assert segments[..n][..p] == segments[..p];
      assert segments[..n][p..] == segments[p..][..n - p];
    } else {
      assert segments[..p] == segments;
    }
  }

  // ---------------------------------------------------------------------
  // The process-wide ledger

  /** The module-level `rooms` map of rooms.ts, owned by one object. */
  class Ledger {
    var rooms: map<string, Room>

    constructor ()
      ensures rooms == map[]
    {
      rooms := map[];
    }

    /** `getRoom`: the room for `roomId`, created empty on first use. */
    method GetRoom(roomId: string) returns (room: Room)
      modifies this
      ensures rooms == EnsureRoom(old(rooms), roomId)
      ensures room == RoomOf(old(rooms), roomId) && room == rooms[roomId]
      ensures roomId in old(rooms) ==> rooms == old(rooms)
    {
      if roomId !in rooms {
        rooms := rooms[roomId := EmptyRoom];
      }
      room := rooms[roomId];
    }

    /** `addSegment`: file `segment` under its stroke in room `roomId`. */
    method AddSegment(roomId: string, userId: string, segment: Segment)
      modifies this
      ensures roomId in rooms
      ensures rooms[roomId] == AddSegmentTo(RoomOf(old(rooms), roomId), userId, segment)
      ensures OthersUnchanged(old(rooms), rooms, roomId)
    {
      var room := GetRoom(roomId);
      var strokes := room.strokes;
      var found := FindStroke(strokes, segment.strokeId);
      var i: nat;
      if found.None? {
        strokes := strokes + [Stroke(segment.strokeId, userId, [])];
        i := |strokes| - 1;
      } else {
        i := found.value;
      }
      ghost var before := strokes;
      strokes := strokes[i := strokes[i].(segments := strokes[i].segments + [segment])];
      if found.None? {
        assert before[i].segments + [segment] == [segment];
        assert strokes == room.strokes + [Stroke(segment.strokeId, userId, [segment])];
      }
      rooms := rooms[roomId := room.(strokes := strokes)];
    }

    /** `undoLast`: scan the live strokes from the newest backwards and move
        the first one drawn by `userId` to the redo stack. */
    method UndoLast(roomId: string, userId: string)
      modifies this
      ensures roomId in rooms
      ensures rooms[roomId] == Undo(RoomOf(old(rooms), roomId), userId)
      ensures OthersUnchanged(old(rooms), rooms, roomId)
    {
      var room := GetRoom(roomId);
      var i := |room.strokes| - 1;
      while i >= 0
        invariant -1 <= i < |room.strokes|
        invariant forall j :: i < j < |room.strokes| ==> room.strokes[j].userId != userId
        invariant rooms == EnsureRoom(old(rooms), roomId) && room == rooms[roomId]
      {
        if room.strokes[i].userId == userId {
          var removed := room.strokes[i];
          UndoTakesLastOwnStroke(room, userId, i);
          rooms := rooms[roomId := Room(room.strokes[..i] + room.strokes[i + 1..], room.redoStack + [removed])];
          return;
        }
        i := i - 1;
      }
      UndoWithoutOwnStrokeIsNoOp(room, userId);
    }

    /** `redoLast`: pop the redo stack and append the stroke to `strokes`. */
    method RedoLast(roomId: string)
      modifies this
      ensures roomId in rooms
      ensures rooms[roomId] == Redo(RoomOf(old(rooms), roomId))
      ensures OthersUnchanged(old(rooms), rooms, roomId)
    {
      var room := GetRoom(roomId);
      if |room.redoStack| == 0 {
        return;
      }
      var n := |room.redoStack| - 1;
      var stroke := room.redoStack[n];
      rooms := rooms[roomId := Room(room.strokes + [stroke], room.redoStack[..n])];
    }

    /** `getAllSegments`: the snapshot of room `roomId`; an unseen id gets an
        empty room and an empty snapshot. */
    method GetAllSegments(roomId: string) returns (segments: seq<Segment>)
      modifies this
      ensures rooms == EnsureRoom(old(rooms), roomId)
      ensures segments == Flatten(rooms[roomId].strokes)
      ensures roomId !in old(rooms) ==> segments == []
    {
      var room := GetRoom(roomId);
      segments := Flatten(room.strokes);
    }

    /** The `stroke-batch` handler's fold: `addSegment` for each segment, in
        array order. An empty batch never reaches `getRoom`, so it does not
        create the room either. */
    method ApplyBatch(roomId: string, userId: string, segments: seq<Segment>)
      modifies this
      ensures |segments| == 0 ==> rooms == old(rooms)
      ensures |segments| > 0 ==> roomId in rooms
      ensures RoomOf(rooms, roomId) == AddBatch(RoomOf(old(rooms), roomId), userId, segments)
      ensures OthersUnchanged(old(rooms), rooms, roomId)
    {
      for k := 0 to |segments|
        invariant k == 0 ==> rooms == old(rooms)
        invariant k > 0 ==> roomId in rooms
        invariant RoomOf(rooms, roomId) == AddBatch(RoomOf(old(rooms), roomId), userId, segments[..k])
        invariant OthersUnchanged(old(rooms), rooms, roomId)
      {
        AddSegment(roomId, userId, segments[k]);
        assert segments[..k + 1][..k] == segments[..k];
      }
      assert segments[..|segments|] == segments;
    }
  }
}
