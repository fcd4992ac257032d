/** The view that owns the tracked point: it builds the argument list of the
    `squish` distortion shader from the point's position, starts the point at
    the centre of its container, and sends it back there when a drag ends. */
module Squish {
  import opened Geometry
  import Metrics
  import opened DragTracking

  /** One shader argument (`.float2`). */
  datatype ShaderArgument = Float2(x: real, y: real)

  /** A call of a shader function of the app's library with its arguments. */
  datatype Shader = Shader(functionName: string, arguments: seq<ShaderArgument>)

  function AsFloat2(p: Point): ShaderArgument
  {
    Float2(p.x, p.y)
  }

  /** The position of the tracked point relative to the container's centre. */
  function ControlVector(position: Point, containerCenter: Point): (v: Point)
    ensures Add(v, containerCenter) == position
  {
    Sub(position, containerCenter)
  }

  /** The control vector is zero exactly when the point sits at the centre. */
  lemma ControlVectorZeroIff(position: Point, containerCenter: Point)
    ensures ControlVector(position, containerCenter) == Zero <==> position == containerCenter
  {
    SubZeroIff(position, containerCenter);
  }

  /** `shader(geometry:)`: the `squish` shader with the layer size's centre
      twice (as layer size and as anchor point) and the control vector. The
      container's centre is the centre of its measured size. */
  function SquishShader(position: Point, geometrySize: Size): (shader: Shader)
    ensures shader.functionName == "squish"
    ensures |shader.arguments| == 3
    ensures shader.arguments[0] == Float2(180.0, 240.0)
    ensures shader.arguments[1] == shader.arguments[0]
    ensures Add(Point(shader.arguments[2].x, shader.arguments[2].y), Center(geometrySize)) == position
  {
    Shader("squish", [
      AsFloat2(Center(Metrics.LayerSize())),
      AsFloat2(Center(Metrics.LayerSize())),
      AsFloat2(ControlVector(position, Center(geometrySize)))
    ])
  }

  /** A point at the container's centre hands the shader a zero control
      vector; for a 360 x 480 container a point at (250, 300) hands it (70, 60). */
  lemma ShaderControlExamples(geometrySize: Size)
    ensures SquishShader(Center(geometrySize), geometrySize).arguments[2] == Float2(0.0, 0.0)
    ensures SquishShader(Point(250.0, 300.0), Size(360.0, 480.0)).arguments[2] == Float2(70.0, 60.0)
  {
  }

  /** The view's `onEnded` callback: put the point back at the container's centre. */
  function ResetTo(containerCenter: Point): DragState -> DragState
  {
    (s: DragState) => s.(position := containerCenter)
  }

  /** Ending a drag with the view's callback twice leaves the record as ending
      it once: not dragging, at the centre, with the recorded grab unchanged. */
  lemma DragEndIdempotent(s: DragState, containerCenter: Point)
    ensures var once := Step(s, Ended, ResetTo(containerCenter));
      !once.isDragging && once.position == containerCenter &&
      once.dragStartPosition == s.dragStartPosition && once.dragOffset == s.dragOffset &&
      Step(once, Ended, ResetTo(containerCenter)) == once
  {
  }

  /** A drag that ends, with the view's callback, leaves the point at rest in
      the centre: not dragging, and the shader's control vector is (0, 0).
      Ending again changes nothing. */
  lemma {:induction false} GestureEndsCentered(s: DragState, events: seq<GestureEvent>,
                                               geometrySize: Size)
    ensures var r := Replay(s, events + [Ended], ResetTo(Center(geometrySize)));
      !r.isDragging && r.position == Center(geometrySize) &&
      SquishShader(r.position, geometrySize).arguments[2] == Float2(0.0, 0.0) &&
      Step(r, Ended, ResetTo(Center(geometrySize))) == r
  {
    var es := events + [Ended];
    assert es[..|es| - 1] == events;
  }

  /** The second of two gestures starts from the centre the first one sent the
      point back to: its later change events place the point at the centre plus
      the second gesture's translation. */
  lemma {:induction false} NextGestureStartsAtCenter(s: DragState, previous: seq<GestureEvent>,
                                                     first: GestureEvent, updates: seq<GestureEvent>,
                                                     geometrySize: Size)
    requires first.Changed? && AllChanges(updates)
    ensures var r := Replay(s, previous + [Ended] + ([first] + updates), ResetTo(Center(geometrySize)));
      r.isDragging &&
      r.position == if updates == [] then Center(geometrySize)
                    else AddSize(Center(geometrySize), updates[|updates| - 1].translation)
  {
    var onEnded := ResetTo(Center(geometrySize));
    ReplayAppend(s, previous + [Ended], [first] + updates, onEnded);
    GestureEndsCentered(s, previous, geometrySize);
    GestureKeepsGrabOffset(Replay(s, previous + [Ended], onEnded), first, updates, onEnded);
  }

  /** The root view. Its tracked point is the record bound to the drag point. */
  class ContentView {
    const controlPointModel: DragPointModel

    constructor ()
      ensures fresh(controlPointModel) && controlPointModel.State() == Initial
    {
      controlPointModel := new DragPointModel();
    }

    /** `onAppear`: start centred in the container. */
    method OnAppear(geometrySize: Size)
      modifies controlPointModel
      ensures controlPointModel.State() == old(controlPointModel.State()).(position := Center(geometrySize))
    {
      controlPointModel.position := Center(geometrySize);
    }

    /** The drag point's `onEnded`: clear the dragging flag, then run this
        view's callback, which resets the point to the container's centre
        (the spring animation is taken as an immediate assignment). */
    method DragPointEnded(geometrySize: Size)
      modifies controlPointModel
      ensures controlPointModel.State() == Step(old(controlPointModel.State()), Ended, ResetTo(Center(geometrySize)))
    {
      controlPointModel.OnEnded();
      controlPointModel.position := Center(geometrySize);
    }
  }
}
