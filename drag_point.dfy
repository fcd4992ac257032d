/** The drag tracker: the `DragPointModel` record and the two callbacks of the
    drag gesture that update it. The first change event of a gesture only
    remembers where the pointer grabbed the point; every later change event
    places the point at that grab position plus the gesture's translation, so
    the point keeps its grab offset and never jumps to the pointer. */
module DragTracking {
  import opened Geometry

  /** The value of a `DragPointModel` record. */
  datatype DragState = DragState(
    isDragging: bool,
    dragStartPosition: Point,
    dragOffset: Point,
    position: Point)

  /** A freshly created record: not dragging, every point at the origin. */
  const Initial: DragState := DragState(false, Zero, Zero, Zero)

  /** The point the tracked position is anchored to while a gesture lasts:
      the pointer location at gesture start plus the offset recorded then. */
  function GrabPosition(s: DragState): Point
  {
    Add(s.dragStartPosition, s.dragOffset)
  }

  /** The record after an `onChanged` event reporting the pointer at `location`
      and the translation since the gesture began. */
  function AfterChanged(s: DragState, location: Point, translation: Size): (r: DragState)
    // A gesture in progress: only the position moves, to the grab position
    // plus the translation.
    ensures s.isDragging ==>
      r == s.(position := AddSize(GrabPosition(s), translation))
    // The gesture starts: the point stays where it is, the record remembers
    // the pointer and the point's offset from it, so that the grab position
    // is the point's current position.
    ensures !s.isDragging ==>
      r.isDragging && r.position == s.position &&
      r.dragStartPosition == location && GrabPosition(r) == s.position
  {
    if s.isDragging then
      s.(position := AddSize(Add(s.dragStartPosition, s.dragOffset), translation))
    else
      s.(dragStartPosition := location,
         dragOffset := Sub(s.position, location),
         isDragging := true)
  }

  /** The record after an `onEnded` event, before the view's callback runs. */
  function AfterEnded(s: DragState): DragState
  {
    s.(isDragging := false)
  }

  /** Ending clears the dragging flag and touches nothing else, and ending
      twice is the same as ending once. */
  lemma AfterEndedIdempotent(s: DragState)
    ensures !AfterEnded(s).isDragging
    ensures AfterEnded(s).position == s.position
    ensures AfterEnded(s).dragStartPosition == s.dragStartPosition
    ensures AfterEnded(s).dragOffset == s.dragOffset
    ensures AfterEnded(AfterEnded(s)) == AfterEnded(s)
  {
  }

  /** A gesture that starts after the previous one ended uses only the current
      position: what is left over in `dragStartPosition` and `dragOffset` from
      the earlier gesture has no effect. */
  lemma StaleGrabIgnored(s: DragState, t: DragState, location: Point, translation: Size)
    requires !s.isDragging && !t.isDragging && s.position == t.position
    ensures AfterChanged(s, location, translation) == AfterChanged(t, location, translation)
  {
  }

  /** One event delivered by the drag gesture. */
  datatype GestureEvent =
    | Changed(location: Point, translation: Size)
    | Ended

  /** The record after one event; `onEnded` is the callback the owning view
      passes to the drag point, run after the dragging flag is cleared. */
  function Step(s: DragState, e: GestureEvent, onEnded: DragState -> DragState): DragState
  {
    match e
    case Changed(location, translation) => AfterChanged(s, location, translation)
    case Ended => onEnded(AfterEnded(s))
  }

  /** The record after a stream of events, delivered in order. */
  function Replay(s: DragState, events: seq<GestureEvent>, onEnded: DragState -> DragState): DragState
    decreases |events|
  {
    if events == [] then s
    else Step(Replay(s, events[..|events| - 1], onEnded), events[|events| - 1], onEnded)
  }

  /** True when every event of the stream is a change event. */
  predicate AllChanges(events: seq<GestureEvent>)
  {
    forall i :: 0 <= i < |events| ==> events[i].Changed?
  }

  /** Replaying two streams one after the other is replaying their concatenation. */
  lemma {:induction false} ReplayAppend(s: DragState, a: seq<GestureEvent>, b: seq<GestureEvent>,
                                        onEnded: DragState -> DragState)
    ensures Replay(s, a + b, onEnded) == Replay(Replay(s, a, onEnded), b, onEnded)
    decreases |b|
  {
    if b == [] {
      assert a + b == a;
    } else {
      var ab := a + b;
      assert ab[..|ab| - 1] == a + b[..|b| - 1];
      assert ab[|ab| - 1] == b[|b| - 1];
      ReplayAppend(s, a, b[..|b| - 1], onEnded);
    }
  }

  /** While a gesture is in progress, change events keep the dragging flag,
      the pointer location and the offset recorded at gesture start, and place
      the point at the grab position plus the latest translation. */
  lemma {:induction false} UpdatesFollowTranslation(d: DragState, updates: seq<GestureEvent>,
                                                    onEnded: DragState -> DragState)
    requires d.isDragging && AllChanges(updates)
    ensures Replay(d, updates, onEnded).isDragging
    ensures Replay(d, updates, onEnded).dragStartPosition == d.dragStartPosition
    ensures Replay(d, updates, onEnded).dragOffset == d.dragOffset
    ensures Replay(d, updates, onEnded).position ==
      if updates == [] then d.position
      else AddSize(GrabPosition(d), updates[|updates| - 1].translation)
    decreases |updates|
  {
    if updates != [] {
      var prefix := updates[..|updates| - 1];
      assert AllChanges(prefix) by {
        forall i | 0 <= i < |prefix| ensures prefix[i].Changed? {
          assert prefix[i] == updates[i];
        }
      }
      UpdatesFollowTranslation(d, prefix, onEnded);
      assert updates[|updates| - 1].Changed?;
    }
  }

  /** A whole gesture, from a record that is not dragging: the first change
      event leaves the point where it was, and each later one puts it at its
      position before the gesture plus the gesture's translation so far. The
      point never snaps to the pointer. */
  lemma {:induction false} GestureKeepsGrabOffset(s: DragState, first: GestureEvent,
                                                  updates: seq<GestureEvent>,
                                                  onEnded: DragState -> DragState)
    requires !s.isDragging && first.Changed? && AllChanges(updates)
    ensures Replay(s, [first] + updates, onEnded).isDragging
    ensures Replay(s, [first] + updates, onEnded).position ==
      if updates == [] then s.position
      else AddSize(s.position, updates[|updates| - 1].translation)
  {
    ReplayAppend(s, [first], updates, onEnded);
    assert [first][..0] == [];
    var started := Replay(s, [first], onEnded);
    assert started == AfterChanged(s, first.location, first.translation);
    UpdatesFollowTranslation(started, updates, onEnded);
  }

  /** A worked gesture: the point rests at (100, 100) and is grabbed with the
      pointer at (140, 130). The first event records the pointer and the
      offset (-40, -30) and leaves the point in place; a later event with
      translation (10, 5) puts it at (110, 105), the grab position moved by
      the translation. */
  lemma ExampleGesture()
    ensures var s := Initial.(position := Point(100.0, 100.0));
      var e1 := Changed(Point(140.0, 130.0), Size(0.0, 0.0));
      var e2 := Changed(Point(150.0, 135.0), Size(10.0, 5.0));
      var started := AfterChanged(s, e1.location, e1.translation);
      started.position == Point(100.0, 100.0) &&
      started.dragStartPosition == Point(140.0, 130.0) &&
      started.dragOffset == Point(-40.0, -30.0) &&
      AfterChanged(started, e2.location, e2.translation).position == Point(110.0, 105.0)
  {
  }

  /** The tracked point, held in place by the view and updated by the drag
      gesture's callbacks. */
  class DragPointModel {
    var isDragging: bool
    var dragStartPosition: Point
    var dragOffset: Point
    var position: Point

    /** The record's current value. */
    function State(): DragState
      reads this
    {
      DragState(isDragging, dragStartPosition, dragOffset, position)
    }

    constructor ()
      ensures State() == Initial
    {
      isDragging := false;
      dragStartPosition := Zero;
      dragOffset := Zero;
      position := Zero;
    }

    /** The gesture's `onChanged` callback. */
    method OnChanged(location: Point, translation: Size)
      modifies this
      ensures State() == AfterChanged(old(State()), location, translation)
    {
      if isDragging {
        position := AddSize(Add(dragStartPosition, dragOffset), translation);
      } else {
        dragStartPosition := location;
        dragOffset := Sub(position, location);
        isDragging := true;
      }
    }

    /** The gesture's `onEnded` callback, up to the call of the view's own
        callback (which the caller then runs). */
    method OnEnded()
      modifies this
      ensures State() == AfterEnded(old(State()))
    {
      isDragging := false;
    }
  }
}
