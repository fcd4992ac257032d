# Squishy: drag tracker and squish-shader arguments

Squishy is a small SwiftUI demo. You drag a control point, and a Metal
`squish` shader warps a grid according to where the point sits relative to
the centre of its container. When you let go, the point springs back to the
centre. This project models the logic behind that in Dafny:

- **Geometry** (`geometry.dfy`): `CGPoint` and `CGSize` as exact-real records,
  with the app's component-wise operators: point + point, point + size,
  point - point, size / scalar, and `center`.
- **Metrics** (`metrics.dfy`): the fixed layout. The view is a 12 x 8 grid of
  20 x 20 cells. It sits in an 18 x 24 layer of the same cells.
- **DragTracking** (`drag_point.dfy`): the `DragPointModel` record, written
  both as a value (`DragState`) and as a class. The class's `OnChanged` and
  `OnEnded` methods are the drag gesture's two callbacks, and each is proved
  against a transition function on `DragState`. `Replay` gives the meaning of a
  stream of gesture events. Lemmas about it show that the point keeps its grab
  offset for the whole gesture and never jumps to the finger.
- **Squish** (`content_view.dfy`): the root view. It holds the record, builds
  the shader's three arguments, and puts the point at the container centre
  both on appear and from the drag point's end callback.

How the tracker works (`Squishy/ContentView.swift:162-178`): the first
`onChanged` of a gesture does not move the point. It stores the pointer
location as `dragStartPosition` and the point's offset from the pointer as
`dragOffset`. Their sum is therefore the point's position at that moment.
Each later `onChanged` sets the position to that sum plus the gesture's
translation. A description of this tracker that says the *tracked position*
is stored as `dragStartPosition` does not match the code: with that reading,
the first update would move the point by `position - pointer`. The model
follows the code, which stores the pointer location (line 170).

## Model

| member | source | states |
|---|---|---|
| `Geometry.Sub` | Squishy/ContentView.swift:226-228 | point subtraction is undone by point addition: `(left - right) + right == left` |
| `Geometry.SubAddCancel` | Squishy/ContentView.swift:218-228 | `(p - q) + q == p` |
| `Geometry.AddSubCancel` | Squishy/ContentView.swift:218-228 | `p + (q - p) == q`, which is why the first drag event does not move the point |
| `Geometry.SubZeroIff` | Squishy/ContentView.swift:226-228 | `p - q` is the zero vector exactly when `p == q` (both directions) |
| `Geometry.AddLaws` | Squishy/ContentView.swift:218-220 | point addition is commutative and associative, with `CGPoint.zero` as identity |
| `Geometry.AddSizeIsAdd` | Squishy/ContentView.swift:218-224 | point + size agrees with point + point once the size is read as a vector |
| `Geometry.AddSizeCompose` | Squishy/ContentView.swift:222-224 | moving by two translations in turn is moving by their sum |
| `Geometry.Divide` | Squishy/ContentView.swift:233-235 | each dimension of `size / d`, multiplied by `d`, gives the original dimension back |
| `Geometry.Center` | Squishy/ContentView.swift:237-239 | the centre, doubled, is the far corner `(width, height)` |
| `Geometry.CenterIsHalf` | Squishy/ContentView.swift:233-239 | `center` equals the size divided by two |
| `Metrics.Size` | Squishy/ContentView.swift:16-34 | the view measures 12·20 by 8·20 = (240, 160) |
| `Metrics.LayerSize` | Squishy/ContentView.swift:18-28 | the layer measures 18·20 by 24·20 = (360, 480) |
| `Metrics.ViewInsideLayer` | Squishy/ContentView.swift:14-35 | the view fits inside the layer, and the layer centre is (180, 240) |
| `DragTracking.AfterChanged` | Squishy/ContentView.swift:162-174 | mid-gesture only the position changes, to the grab position plus the translation; on the gesture's first event the position stays, `isDragging` turns true, the pointer location is stored, and start + offset equals the current position |
| `DragTracking.AfterEndedIdempotent` | Squishy/ContentView.swift:175-176 | `onEnded` clears `isDragging`, leaves position, start and offset alone, and is idempotent |
| `DragTracking.StaleGrabIgnored` | Squishy/ContentView.swift:169-173 | a new gesture's start depends only on the current position, not on the start and offset left from the previous gesture |
| `DragTracking.ReplayAppend` | Squishy/ContentView.swift:160-179 | the events of two streams, delivered in order, act as their concatenation |
| `DragTracking.UpdatesFollowTranslation` | Squishy/ContentView.swift:165-166 | during a gesture, every change event keeps `isDragging`, start and offset, and puts the point at grab position plus the latest translation |
| `DragTracking.GestureKeepsGrabOffset` | Squishy/ContentView.swift:162-174 | over a whole gesture, the point stays put on the first event and sits at its pre-gesture position plus the latest translation afterwards; it never jumps to the pointer |
| `DragTracking.ExampleGesture` | Squishy/ContentView.swift:165-173 | point (100,100), pointer (140,130): offset (-40,-30), no move on start, then (110,105) after translation (10,5) |
| `DragTracking.DragPointModel.constructor` | Squishy/ContentView.swift:134-140 | a new record is not dragging and has every point at the origin |
| `DragTracking.DragPointModel.OnChanged` | Squishy/ContentView.swift:162-174 | the record's new value is `AfterChanged` of its old value |
| `DragTracking.DragPointModel.OnEnded` | Squishy/ContentView.swift:175-176 | the record's new value is its old value with `isDragging` false |
| `Squish.ControlVector` | Squishy/ContentView.swift:47 | the control vector added to the container centre gives back the point's position |
| `Squish.ControlVectorZeroIff` | Squishy/ContentView.swift:47 | the control vector is (0, 0) exactly when the point is at the container centre |
| `Squish.SquishShader` | Squishy/ContentView.swift:37-50 | the `squish` function gets three arguments: the layer centre (180, 240) twice, then the point relative to the container centre |
| `Squish.ShaderControlExamples` | Squishy/ContentView.swift:43-47 | a centred point gives a (0,0) control vector; (250,300) in a 360x480 container gives (70,60) |
| `Squish.DragEndIdempotent` | Squishy/ContentView.swift:116-120 | the drag end with the view's callback leaves the point at the centre, not dragging, and doing it twice equals doing it once |
| `Squish.GestureEndsCentered` | Squishy/ContentView.swift:116-120 | after any event stream that ends with a drag end, the point is at the container centre, not dragging, and the control vector is (0, 0) |
| `Squish.NextGestureStartsAtCenter` | Squishy/ContentView.swift:114-122 | after a drag ends, the next gesture moves the point from the centre by that gesture's translation |
| `Squish.ContentView.constructor` | Squishy/ContentView.swift:12 | the view owns a new record in its initial state |
| `Squish.ContentView.OnAppear` | Squishy/ContentView.swift:127-129 | on appear only the position changes, to the container centre |
| `Squish.ContentView.DragPointEnded` | Squishy/ContentView.swift:175-177 | the drag end clears `isDragging` first, then runs the view's callback, which sets the position to the container centre |

## Left out

- View composition, modifiers, blend modes and `frame(size:)` (lines 52-131, 248-253): layout with no behaviour of its own.
- `Grid` drawing (lines 183-207): pure drawing.
- The `squish` shader's own computation: its Metal source is not part of this model. Only the function name and the argument list are modelled.
- The spring animation (`withAnimation`, `Animation.spring`, lines 118 and 255-262): the framework owns the interpolation. The reset to the centre is modelled as an immediate assignment.
- `GeometryProxy` measurement (lines 209-214): the container's measured size is a parameter, and its centre is `Geometry.Center` of that size.
- The `ViewSize` preference key (lines 242-246): its `reduce` does nothing and nothing uses it.
- IEEE floating-point rounding of `CGFloat`: coordinates are exact reals.
- Geometry.Divide: requires a non-zero divisor, so IEEE division by zero (infinities, NaN) is not modelled. The app itself never calls this operator.
- The order in which the framework delivers gesture events, and its threading: `Replay` accepts any order of events, and the lemmas state what holds for well-formed gestures.
