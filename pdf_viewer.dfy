/** The zoom and rotation state of the PDF preview dialog. Zoom moves in steps
    of 25 percent between 50 and 200; rotation turns a quarter at a time. */
module PdfViewer {

  const InitialZoom: int := 100
  const MinZoom: int := 50
  const MaxZoom: int := 200
  const ZoomStep: int := 25
  const QuarterTurn: int := 90
  const FullTurn: int := 360

  /** JavaScript's `%`: the remainder takes the sign of the dividend. */
  function JsRemainder(a: int, n: int): (r: int)
    requires n > 0
    ensures a >= 0 ==> r == a % n
  {
    if a >= 0 then a % n else -((-a) % n)
  }

  /** `Math.min(z + 25, 200)`. */
  function ZoomedIn(z: int): (r: int)
    ensures r <= MaxZoom
    ensures z + ZoomStep <= MaxZoom ==> r == z + ZoomStep
    ensures z + ZoomStep >= MaxZoom ==> r == MaxZoom
  {
    if z + ZoomStep < MaxZoom then z + ZoomStep else MaxZoom
  }

  /** `Math.max(z - 25, 50)`. */
  function ZoomedOut(z: int): (r: int)
    ensures r >= MinZoom
    ensures z - ZoomStep >= MinZoom ==> r == z - ZoomStep
    ensures z - ZoomStep <= MinZoom ==> r == MinZoom
  {
    if z - ZoomStep > MinZoom then z - ZoomStep else MinZoom
  }

  /** `(r + 90) % 360`. */
  function Rotated(rotation: int): (r: int)
    ensures rotation >= 0 ==> 0 <= r < FullTurn && (rotation + QuarterTurn - r) % FullTurn == 0
  {
    JsRemainder(rotation + QuarterTurn, FullTurn)
  }

  /** The zoom levels reachable from the initial one: multiples of 25 from 50
      to 200. */
  predicate ValidZoom(z: int) {
    MinZoom <= z <= MaxZoom && z % ZoomStep == 0
  }

  /** The angles reachable from the initial one: 0, 90, 180 and 270. */
  predicate ValidRotation(rotation: int) {
    0 <= rotation < FullTurn && rotation % QuarterTurn == 0
  }

  lemma ZoomStepsStayValid(z: int)
    requires ValidZoom(z)
    ensures ValidZoom(ZoomedIn(z)) && ValidZoom(ZoomedOut(z))
  {
  }

  lemma RotationStaysValid(rotation: int)
    requires ValidRotation(rotation)
    ensures ValidRotation(Rotated(rotation))
  {
  }

  /** Zooming in at the maximum and out at the minimum changes nothing. */
  lemma ZoomLimitsAreFixed()
    ensures ZoomedIn(MaxZoom) == MaxZoom && ZoomedOut(MinZoom) == MinZoom
  {
  }

  /** Zooming out undoes zooming in below the maximum. */
  lemma ZoomOutUndoesZoomIn(z: int)
    requires MinZoom <= z <= MaxZoom - ZoomStep
    ensures ZoomedOut(ZoomedIn(z)) == z
  {
  }

  /** Four quarter turns come back to the starting angle. */
  lemma FourRotationsIdentity(rotation: int)
    requires 0 <= rotation < FullTurn
    ensures Rotated(Rotated(Rotated(Rotated(rotation)))) == rotation
  {
  }

  /** The three buttons of the dialog. */
  datatype ViewerAction = ZoomIn | ZoomOut | Rotate

  /** The (zoom, rotation) state after pressing the buttons in order. */
  function Run(actions: seq<ViewerAction>, zoom: int, rotation: int): (int, int)
    decreases |actions|
  {
    if actions == [] then (zoom, rotation)
    else
      match actions[0]
      case ZoomIn => Run(actions[1..], ZoomedIn(zoom), rotation)
      case ZoomOut => Run(actions[1..], ZoomedOut(zoom), rotation)
      case Rotate => Run(actions[1..], zoom, Rotated(rotation))
  }

  /** Whatever buttons are pressed, the state stays among the valid ones; in
      particular from the initial state zoom is a multiple of 25 in [50, 200]
      and rotation one of 0, 90, 180, 270. */
  lemma {:induction false} RunStaysValid(actions: seq<ViewerAction>, zoom: int, rotation: int)
    requires ValidZoom(zoom) && ValidRotation(rotation)
    ensures ValidZoom(Run(actions, zoom, rotation).0) && ValidRotation(Run(actions, zoom, rotation).1)
    decreases |actions|
  {
    if actions != [] {
      ZoomStepsStayValid(zoom);
      RotationStaysValid(rotation);
      match actions[0]
      case ZoomIn => RunStaysValid(actions[1..], ZoomedIn(zoom), rotation);
      case ZoomOut => RunStaysValid(actions[1..], ZoomedOut(zoom), rotation);
      case Rotate => RunStaysValid(actions[1..], zoom, Rotated(rotation));
    }
  }

  /** The zoom buttons never touch the rotation, and rotating never touches
      the zoom. */
  lemma {:induction false} RunSeparatesZoomAndRotation(actions: seq<ViewerAction>, zoom: int, rotation: int)
    ensures Run(actions, zoom, rotation).0 == Run(actions, zoom, 0).0
    ensures Run(actions, zoom, rotation).1 == Run(actions, InitialZoom, rotation).1
    decreases |actions|
  {
    if actions != [] {
      match actions[0]
      case ZoomIn =>
        RunSeparatesZoomAndRotation(actions[1..], ZoomedIn(zoom), rotation);
        RunSeparatesZoomAndRotation(actions[1..], InitialZoom, rotation);
        RunSeparatesZoomAndRotation(actions[1..], ZoomedIn(InitialZoom), rotation);
      case ZoomOut =>
        RunSeparatesZoomAndRotation(actions[1..], ZoomedOut(zoom), rotation);
        RunSeparatesZoomAndRotation(actions[1..], ZoomedOut(InitialZoom), rotation);
      case Rotate =>
        RunSeparatesZoomAndRotation(actions[1..], zoom, Rotated(rotation));
        RunSeparatesZoomAndRotation(actions[1..], zoom, Rotated(0));
    }
  }

  /** The dialog's state. */
  class Viewer {
    var zoom: int
    var rotation: int

    ghost predicate Valid()
      reads this
    {
      ValidZoom(zoom) && ValidRotation(rotation)
    }

    constructor ()
      ensures zoom == InitialZoom && rotation == 0 && Valid()
    {
      zoom := InitialZoom;
      rotation := 0;
    }

    method HandleZoomIn()
      requires Valid()
      modifies this
      ensures zoom == ZoomedIn(old(zoom)) && rotation == old(rotation) && Valid()
    {
      ZoomStepsStayValid(zoom);
      zoom := if zoom + ZoomStep < MaxZoom then zoom + ZoomStep else MaxZoom;
    }

    method HandleZoomOut()
      requires Valid()
      modifies this
      ensures zoom == ZoomedOut(old(zoom)) && rotation == old(rotation) && Valid()
    {
      ZoomStepsStayValid(zoom);
      zoom := if zoom - ZoomStep > MinZoom then zoom - ZoomStep else MinZoom;
    }

    method HandleRotate()
      requires Valid()
      modifies this
      ensures rotation == Rotated(old(rotation)) && zoom == old(zoom) && Valid()
    {
      RotationStaysValid(rotation);
      rotation := (rotation + QuarterTurn) % FullTurn;
    }
  }
}
