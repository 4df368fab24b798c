/** The drawing client of client/src/App.tsx: the gesture in progress, the
    buffer of segments waiting for the next flush tick, the canvas as a display
    list of painted segments, and the map of remote cursors. */
module Client {
  import opened Optional
  import opened Segments

  datatype Tool = Brush | Eraser

  /** The gesture in progress (App.tsx's local `Stroke`): its id, the points
      sampled so far and the style fixed when it started. */
  datatype DraftStroke = DraftStroke(
    id: string,
    points: seq<Point>,
    color: string,
    width: int,
    isEraser: bool)

  /** The segment from `a` to `b` in the style of `stroke`, built as `draw`
      builds it. */
  function SegmentOf(stroke: DraftStroke, a: Point, b: Point): Segment
  {
    Segment(stroke.id, a, b, stroke.color, stroke.width, stroke.isEraser)
  }

  /** The segments a gesture has produced: one per sampled point after the
      first, in the order `draw` produced them. */
  function Chain(stroke: DraftStroke): seq<Segment>
    decreases |stroke.points|
  {
    var n := |stroke.points|;
    if n < 2 then []
    else Chain(stroke.(points := stroke.points[..n - 1]))
         + [SegmentOf(stroke, stroke.points[n - 2], stroke.points[n - 1])]
  }

  /** Segment `i` of a gesture joins its points `i` and `i + 1`. */
  lemma {:induction false} ChainAt(stroke: DraftStroke, i: nat)
    requires i + 1 < |stroke.points|
    ensures |Chain(stroke)| == |stroke.points| - 1
    ensures Chain(stroke)[i] == SegmentOf(stroke, stroke.points[i], stroke.points[i + 1])
    decreases |stroke.points|
  {
    var n := |stroke.points|;
    var shorter := stroke.(points := stroke.points[..n - 1]);
    if i + 2 < n {
      ChainAt(shorter, i);
    } else if n > 2 {
      ChainAt(shorter, 0);
    }
  }

  /** The segments of one gesture form a connected path in the gesture's
      style: each carries its stroke id, colour, width and eraser flag, and
      each one ends where the next one starts. */
  lemma ChainIsConnected(stroke: DraftStroke)
    ensures |stroke.points| > 0 ==> |Chain(stroke)| == |stroke.points| - 1
    ensures forall i :: 0 <= i < |Chain(stroke)| ==>
      && Chain(stroke)[i].strokeId == stroke.id
      && Chain(stroke)[i].color == stroke.color
      && Chain(stroke)[i].width == stroke.width
      && Chain(stroke)[i].isEraser == stroke.isEraser
    ensures forall i :: 0 <= i < |Chain(stroke)| - 1 ==> Chain(stroke)[i].end == Chain(stroke)[i + 1].start
  {
    var c := Chain(stroke);
    if |stroke.points| >= 2 {
      ChainAt(stroke, 0);
      forall i | 0 <= i < |c|
        ensures c[i].strokeId == stroke.id && c[i].color == stroke.color
        ensures c[i].width == stroke.width && c[i].isEraser == stroke.isEraser
        ensures c[i].start == stroke.points[i] && c[i].end == stroke.points[i + 1]
      {
        ChainAt(stroke, i);
      }
    }
  }

  /** The segments of a list of batches, batch after batch. */
  function Concat(batches: seq<seq<Segment>>): seq<Segment>
  {
    if |batches| == 0 then []
    else Concat(batches[..|batches| - 1]) + batches[|batches| - 1]
  }

  class CanvasClient {
    /** `pendingSegments.current`: recorded, not yet flushed. */
    var pending: seq<Segment>
    /** `currentStroke.current`. */
    var current: Option<DraftStroke>
    /** Whether the canvas-setup effect has stored the 2D context. */
    var hasContext: bool
    /** The canvas, as the segments painted on it since `Redraw` last cleared it
        (a resize wiping the bitmap is not modelled). */
    var display: seq<Segment>
    /** The remote cursors, by user id. */
    var cursors: map<string, Point>

    /** Every segment ever recorded, and every batch ever emitted. */
    ghost var recorded: seq<Segment>
    ghost var batches: seq<seq<Segment>>

    /** The buffer loses, duplicates and reorders nothing: the emitted
        batches followed by the buffer are exactly the recorded segments, and
        no emitted batch is empty. */
    ghost predicate BufferValid()
      reads this
    {
      && Concat(batches) + pending == recorded
      && forall b :: b in batches ==> |b| > 0
    }

    /** Besides, a gesture in progress has at least its starting point, and
        the segments it has produced are the last ones recorded. */
    ghost predicate Valid()
      reads this
    {
      && BufferValid()
      && (current.Some? ==>
            var chain := Chain(current.value);
            && |current.value.points| > 0
            && |chain| <= |recorded|
            && recorded[|recorded| - |chain|..] == chain)
    }

    constructor ()
      ensures Valid()
      ensures pending == [] && current == None && !hasContext
      ensures display == [] && cursors == map[]
      ensures recorded == [] && batches == []
    {
      pending, current, hasContext := [], None, false;
      display, cursors := [], map[];
      recorded, batches := [], [];
    }

    /** The canvas-setup effect: the 2D context becomes available. */
    method AttachContext()
      modifies this
      ensures hasContext
      ensures pending == old(pending) && current == old(current) && display == old(display)
      ensures cursors == old(cursors) && recorded == old(recorded) && batches == old(batches)
    {
      hasContext := true;
    }

    /** Recording a segment appends it to the buffer and emits nothing. */
    method Record(segment: Segment)
      requires BufferValid()
      modifies this
      ensures BufferValid()
      ensures pending == old(pending) + [segment] && recorded == old(recorded) + [segment]
      ensures batches == old(batches)
      ensures current == old(current) && hasContext == old(hasContext)
      ensures display == old(display) && cursors == old(cursors)
    {
      pending := pending + [segment];
      recorded := recorded + [segment];
    }

    /** The flush tick: an empty buffer emits nothing; otherwise the whole
        buffer goes out, in order, as one batch, and the buffer is emptied. */
    method Flush() returns (batch: Option<seq<Segment>>)
      requires Valid()
      modifies this
      ensures Valid()
      ensures old(pending) == [] ==> batch == None && batches == old(batches)
      ensures old(pending) != [] ==>
        batch == Some(old(pending)) && batches == old(batches) + [old(pending)]
      ensures batch.Some? ==> |batch.value| > 0
      ensures pending == [] && recorded == old(recorded)
      ensures current == old(current) && hasContext == old(hasContext)
      ensures display == old(display) && cursors == old(cursors)
    {
      if |pending| == 0 {
        return None;
      }
      batch := Some(pending);
      ghost var sent := batches + [pending];
      assert sent[..|sent| - 1] == batches;
      assert Concat(sent) == Concat(batches) + pending;
      batches := sent;
      pending := [];
    }

    /** `startDraw`: a new gesture with the fresh id, the one point sampled
        and the current style; the eraser flag is set exactly for the
        eraser tool. */
    method StartDraw(freshId: string, p: Point, tool: Tool, color: string, width: int)
      requires Valid()
      modifies this
      ensures Valid()
      ensures current == Some(DraftStroke(freshId, [p], color, width, tool == Eraser))
      ensures pending == old(pending) && hasContext == old(hasContext) && display == old(display)
      ensures cursors == old(cursors) && recorded == old(recorded) && batches == old(batches)
    {
      current := Some(DraftStroke(freshId, [p], color, width, tool == Eraser));
    }

    /** `draw`: without a gesture in progress or a context nothing happens.
        Otherwise the point is added to the gesture, the segment from the
        previous last point paints the canvas and is recorded. */
    method Draw(p: Point)
      requires Valid()
      modifies this
      ensures Valid()
      ensures old(current).None? || !old(hasContext) ==>
        && current == old(current) && pending == old(pending) && display == old(display)
        && recorded == old(recorded)
      ensures old(current).Some? && old(hasContext) ==>
        var stroke := old(current).value;
        var segment := SegmentOf(stroke, stroke.points[|stroke.points| - 1], p);
        && current == Some(stroke.(points := stroke.points + [p]))
        && pending == old(pending) + [segment]
        && display == old(display) + [segment]
        && recorded == old(recorded) + [segment]
        && Chain(current.value) == Chain(stroke) + [segment]
      ensures batches == old(batches) && hasContext == old(hasContext) && cursors == old(cursors)
    {
      if current.None? || !hasContext {
        return;
      }
      var stroke := current.value;
      stroke := stroke.(points := stroke.points + [p]);
      current := Some(stroke);
      var n := |stroke.points|;
      var segment := SegmentOf(stroke, stroke.points[n - 2], p);
      display := display + [segment];
      ghost var chain := Chain(old(current).value);
      assert stroke.(points := stroke.points[..n - 1]) == old(current).value;
      Record(segment);
      assert recorded[|recorded| - |chain| - 1..] == old(recorded)[|old(recorded)| - |chain|..] + [segment];
    }

    /** `endDraw`: the gesture is over. */
    method EndDraw()
      requires Valid()
      modifies this
      ensures Valid()
      ensures current == None
      ensures pending == old(pending) && hasContext == old(hasContext) && display == old(display)
      ensures cursors == old(cursors) && recorded == old(recorded) && batches == old(batches)
    {
      current := None;
    }

    /** `drawRemoteSegment`: paint one segment on top of the canvas. */
    method PaintRemote(segment: Segment)
      requires hasContext
      modifies this
      ensures display == old(display) + [segment]
      ensures pending == old(pending) && current == old(current) && hasContext == old(hasContext)
      ensures cursors == old(cursors) && recorded == old(recorded) && batches == old(batches)
    {
      display := display + [segment];
    }

    /** The `stroke-batch` listener: paint each segment of the batch, in
        order, on top of the canvas. */
    method PaintRemoteBatch(segments: seq<Segment>)
      requires hasContext
      modifies this
      ensures display == old(display) + segments
      ensures pending == old(pending) && current == old(current) && hasContext == old(hasContext)
      ensures cursors == old(cursors) && recorded == old(recorded) && batches == old(batches)
    {
      for k := 0 to |segments|
        invariant display == old(display) + segments[..k]
        invariant pending == old(pending) && current == old(current) && hasContext == old(hasContext)
        invariant cursors == old(cursors) && recorded == old(recorded) && batches == old(batches)
      {
        PaintRemote(segments[k]);
        assert segments[..k + 1] == segments[..k] + [segments[k]];
      }
      assert segments[..|segments|] == segments;
    }

    /** `redrawFromSegments`: clear the canvas, then paint the snapshot in
        order. What is on the canvas afterwards depends on the snapshot alone,
        so a second redraw with the same snapshot changes nothing. */
    method Redraw(snapshot: seq<Segment>)
      requires hasContext
      modifies this
      ensures display == snapshot
      ensures pending == old(pending) && current == old(current) && hasContext == old(hasContext)
      ensures cursors == old(cursors) && recorded == old(recorded) && batches == old(batches)
    {
      display := [];
      for k := 0 to |snapshot|
        invariant display == snapshot[..k]
        invariant pending == old(pending) && current == old(current) && hasContext == old(hasContext)
        invariant cursors == old(cursors) && recorded == old(recorded) && batches == old(batches)
      {
        PaintRemote(snapshot[k]);
        assert snapshot[..k + 1] == snapshot[..k] + [snapshot[k]];
      }
      assert snapshot[..|snapshot|] == snapshot;
    }

    /** The `cursor-move` listener: overwrite the entry of `userId` only. */
    method MoveCursor(userId: string, p: Point)
      modifies this
      ensures cursors == old(cursors)[userId := p]
      ensures pending == old(pending) && current == old(current) && hasContext == old(hasContext)
      ensures display == old(display) && recorded == old(recorded) && batches == old(batches)
    {
      cursors := cursors[userId := p];
    }
  }
}
