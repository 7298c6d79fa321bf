/**
  The `CanvasDrawing` component: the drag handler that turns a pointer position
  into an angle, the tick-mark loop of `drawCylinders`, and the order in which
  one repaint draws the dial. Directions are in degrees counter-clockwise from
  12 o'clock on the screen, which is how the dial runs: the red sweep is drawn
  anticlockwise from 12 o'clock and the needle points at `-angle`.
  Trigonometry and pixel coordinates are not modelled.
 */
module CanvasDrawing {
  import opened Wrappers
  import AngleControl

  // ---------------------------------------------------------------------------
  // Dragging the dial

  /**
    The handler's `degreeAngle` (the pointer's direction minus 90 degrees)
    brought into one turn: negative values get a full turn added.
   */
  function Normalize(degreeAngle: real): (r: real)
    requires -270.0 <= degreeAngle <= 90.0
    ensures 0.0 <= r < 360.0
    ensures r == degreeAngle || r == degreeAngle + 360.0
  {
    if degreeAngle >= 0.0 then degreeAngle else degreeAngle + 360.0
  }

  /**
    The angle a drag sets, from `pointerDegrees`, the value of
    `-atan2(mouseY, mouseX)` in degrees (atan2 lies in [-180, 180] degrees):
    floor of ten times the normalised direction.
   */
  function DragAngle(pointerDegrees: real): (r: int)
    requires -180.0 <= pointerDegrees <= 180.0
    ensures 0 <= r < 3600
    ensures r as real <= 10.0 * Normalize(pointerDegrees - 90.0) < r as real + 1.0
  {
    (Normalize(pointerDegrees - 90.0) * 10.0).Floor
  }

  /** A mouse move sets the angle only with the primary button alone held, while stopped, on a mounted canvas. */
  predicate DragAccepted(buttons: int, isActive: bool, canvasMounted: bool) {
    buttons == 1 && !isActive && canvasMounted
  }

  /** The value a mouse move passes to `setAngle`, if it calls it at all. */
  function DragUpdate(buttons: int, isActive: bool, canvasMounted: bool, pointerDegrees: real): (r: Option<int>)
    requires -180.0 <= pointerDegrees <= 180.0
    ensures r.Some? <==> DragAccepted(buttons, isActive, canvasMounted)
    ensures r.Some? ==> 0 <= r.value < 3600
  {
    if DragAccepted(buttons, isActive, canvasMounted) then Some(DragAngle(pointerDegrees)) else None
  }

  /** `handleMouseMove`, ending in the hook's `setAngle` when the gate lets it through. */
  method HandleMouseMove(control: AngleControl.Countdown, buttons: int, canvasMounted: bool, pointerDegrees: real)
    requires -180.0 <= pointerDegrees <= 180.0
    modifies control
    ensures control.isActive == old(control.isActive)
    ensures control.angle == match DragUpdate(buttons, old(control.isActive), canvasMounted, pointerDegrees)
                             case Some(a) => a
                             case None => old(control.angle)
    ensures old(control.OnDial()) ==> control.OnDial()
  {
    if DragAccepted(buttons, control.isActive, canvasMounted) {
      control.SetAngle(DragAngle(pointerDegrees));
    }
  }

  /**
    The value of `-atan2(mouseY, mouseX)` in degrees for a pointer `ccw` degrees
    counter-clockwise from 12 o'clock (screen y grows downwards). This is a fact
    about atan2, stated here instead of computed.
   */
  function PointerDegreesAt(ccw: real): (r: real)
    requires 0.0 <= ccw < 360.0
    ensures -180.0 <= r < 180.0
  {
    if ccw < 90.0 then ccw + 90.0 else ccw - 270.0
  }

  /** The needle's direction for an angle, from `drawMovingCylinder(..., -angle, ...)`. */
  function NeedleDegrees(angle: int): (r: real)
    ensures 0 <= angle < 3600 ==> 0.0 <= r < 360.0
    ensures (10.0 * r).Floor == angle
  {
    angle as real / 10.0
  }

  /** A drag recovers the pointer's direction in tenths of a degree, rounded down. */
  lemma DragRecoversDirection(ccw: real)
    requires 0.0 <= ccw < 360.0
    ensures DragAngle(PointerDegreesAt(ccw)) == (10.0 * ccw).Floor
  {
  }

  /** Dragging to where the needle of `angle` points sets exactly that angle. */
  lemma DragOntoNeedle(angle: int)
    requires 0 <= angle < 3600
    ensures DragAngle(PointerDegreesAt(NeedleDegrees(angle))) == angle
  {
  }

  // ---------------------------------------------------------------------------
  // The tick marks of drawCylinders

  const TickCount: nat := 56
  const MajorWidth: int := 5
  const MinorWidth: int := 3

  /** What one pass of the `drawCylinders` loop strokes (and writes, for a major mark). */
  datatype TickMark = TickMark(index: nat, isMajor: bool, width: int, length: real, text: Option<int>)

  /**
    Pass `i` of the loop, for the radius `drawCylinders` is given. A mark is major
    exactly when its index is a multiple of 5; only a major one is labelled, and
    its label `5 * (i / 5)` is its own index.
   */
  function MarkAt(i: nat, radius: real): (m: TickMark)
    ensures m.index == i
    ensures m.isMajor <==> i % 5 == 0
    ensures m.text.Some? <==> m.isMajor
    ensures m.isMajor ==> m.text == Some(i) && m.width == 5 && m.length == radius - 70.0
    ensures !m.isMajor ==> m.width == 3 && m.length == radius - 80.0
  {
    var isBig := i % 5 == 0;
    TickMark(i, isBig,
             if isBig then MajorWidth else MinorWidth,
             if isBig then radius - 70.0 else radius - 80.0,
             if isBig then Some(5 * (i / 5)) else None)
  }

  /**
    The stroke of pass `i` is a whole diameter at `i` times 6 degrees, so it also
    marks the opposite position; the label is written at this end.
   */
  function MarkDegrees(i: nat): (d: int)
    ensures i < 60 ==> 0 <= d < 360
    ensures d % 6 == 0 && d / 6 == i
  {
    6 * i
  }

  /** Major marks are strictly wider and longer than minor ones. */
  lemma MajorOutranksMinor(i: nat, j: nat, radius: real)
    requires MarkAt(i, radius).isMajor && !MarkAt(j, radius).isMajor
    ensures MarkAt(i, radius).width > MarkAt(j, radius).width
    ensures MarkAt(i, radius).length > MarkAt(j, radius).length
  {
  }

  /** The loop of `drawCylinders`, collecting each pass's mark instead of stroking it. */
  method DrawCylinders(radius: real) returns (marks: seq<TickMark>)
    ensures |marks| == TickCount
    ensures forall i :: 0 <= i < |marks| ==> marks[i] == MarkAt(i, radius)
  {
    marks := [];
    for i := 0 to TickCount
      invariant |marks| == i
      invariant forall j :: 0 <= j < i ==> marks[j] == MarkAt(j, radius)
    {
      marks := marks + [MarkAt(i, radius)];
    }
  }

  /** The indices of the major marks of a plan, in order. */
  function MajorIndices(plan: seq<TickMark>): seq<nat> {
    if plan == [] then []
    else MajorIndices(plan[..|plan| - 1]) + (if plan[|plan| - 1].isMajor then [plan[|plan| - 1].index] else [])
  }

  /** Multiples of five below `5 * k`. */
  function MultiplesOfFive(k: nat): (r: seq<nat>)
    ensures |r| == k
    ensures forall j :: 0 <= j < k ==> r[j] == 5 * j
  {
    if k == 0 then [] else MultiplesOfFive(k - 1) + [5 * (k - 1)]
  }

  lemma {:induction false} MajorIndicesOfPrefix(plan: seq<TickMark>, radius: real, n: nat)
    requires n <= |plan|
    requires forall i :: 0 <= i < |plan| ==> plan[i] == MarkAt(i, radius)
    ensures MajorIndices(plan[..n]) == MultiplesOfFive((n + 4) / 5)
  {
    if n > 0 {
      MajorIndicesOfPrefix(plan, radius, n - 1);
      assert plan[..n][..n - 1] == plan[..n - 1];
      if (n - 1) % 5 == 0 {
        assert (n + 4) / 5 == (n + 3) / 5 + 1;
        assert 5 * ((n + 3) / 5) == n - 1;
      } else {
        assert (n + 4) / 5 == (n + 3) / 5;
      }
    }
  }

  /** The 56 marks have exactly 12 majors: 0, 5, ..., 55. */
  lemma TwelveMajors(plan: seq<TickMark>, radius: real)
    requires |plan| == TickCount
    requires forall i :: 0 <= i < |plan| ==> plan[i] == MarkAt(i, radius)
    ensures MajorIndices(plan) == MultiplesOfFive(12)
    ensures |MajorIndices(plan)| == 12
  {
    MajorIndicesOfPrefix(plan, radius, TickCount);
    assert plan[..TickCount] == plan;
  }

  /**
    Each of the 60 minute positions around the dial (position `k` at `6 * k`
    degrees) is drawn by one of the 56 diameters, by a major stroke exactly when
    `k` is a multiple of 5.
   */
  function CoveringMark(k: nat): (i: nat)
    requires k < 60
    ensures i < TickCount
    ensures MarkDegrees(i) == 6 * k || (MarkDegrees(i) + 180) % 360 == 6 * k
    ensures MarkAt(i, 0.0).isMajor <==> k % 5 == 0
  {
    if k < TickCount then k else k - 30
  }

  // ---------------------------------------------------------------------------
  // One repaint

  /** Fill colours: `'#e9e9e9'`, `'red'` and `'#f5f5f5'`. */
  datatype Color = LightGray | Red | Background

  /**
    What a repaint issues, in order. Disc sweeps and the needle's direction are
    in the angle unit (tenths of a degree) as passed to `drawCircle` and
    `drawMovingCylinder`.
   */
  datatype DrawOp =
    | Resize(side: real)
    | Cylinders(center: real, radius: real)
    | Disc(center: real, radius: real, fromTenths: int, toTenths: int, fill: Color)
    | Needle(center: real, length: real, tenths: int, stroke: Color)

  /** `drawCircle` fills a wedge 20 pixels inside the radius it is given. */
  function PaintedRadius(op: DrawOp): real
    requires op.Disc?
  {
    op.radius - 20.0
  }

  /** The static layer: the tick marks, then the light-gray full disc. */
  function StaticLayer(size: real): (ops: seq<DrawOp>)
    ensures |ops| == 2 && ops[0].Cylinders? && ops[1].Disc?
    ensures ops[1].fill == LightGray && ops[1].toTenths - ops[1].fromTenths == 3600
    ensures ops[1].center == ops[0].center && ops[0].radius - 80.0 > PaintedRadius(ops[1])
  {
    [Cylinders(size / 2.0, size / 2.0 - 5.0),
     Disc(size / 2.0, size / 2.0 - 70.0, 0, 3600, LightGray)]
  }

  /** The dynamic layer: the red sweep, the needle, then the cap disc over the centre. */
  function DynamicLayer(size: real, angle: int): (ops: seq<DrawOp>)
    ensures |ops| == 3 && ops[0].Disc? && ops[1].Needle? && ops[2].Disc?
    ensures ops[0].fill == Red && ops[0].fromTenths == 0 && ops[0].fromTenths - ops[0].toTenths == angle
    ensures ops[1].tenths == ops[0].toTenths
    ensures ops[2].center == ops[1].center && ops[2].radius == ops[1].length
    ensures PaintedRadius(ops[2]) < ops[1].length
  {
    [Disc(size / 2.0, size / 2.0 - 70.0, 0, -angle, Red),
     Needle(size / 2.0, size / 8.0, -angle, Background),
     Disc(size / 2.0, size / 8.0, 0, 3600, Background)]
  }

  /** The effect run on every change of `size` or `angle`; nothing is drawn without a canvas and its 2D context. */
  function Render(hasCanvas: bool, hasContext: bool, size: real, angle: int): (ops: seq<DrawOp>)
    ensures ops == [] <==> !(hasCanvas && hasContext)
    ensures ops != [] ==> |ops| == 6 && ops[0] == Resize(size)
    ensures ops != [] ==> ops[1..3] == StaticLayer(size) && ops[3..] == DynamicLayer(size, angle)
  {
    if hasContext && hasCanvas then [Resize(size)] + StaticLayer(size) + DynamicLayer(size, angle) else []
  }

  /** What a repaint guarantees about the picture. */
  lemma RenderLayout(hasCanvas: bool, hasContext: bool, size: real, angle: int)
    ensures var ops := Render(hasCanvas, hasContext, size, angle);
      && (ops == [] <==> !(hasCanvas && hasContext))
      && (ops != [] ==>
            |ops| == 6 && ops[0] == Resize(size)
            // the tick marks are drawn before anything else and reach beyond the gray disc
            && ops[1].Cylinders? && ops[2].Disc? && ops[2].fill == LightGray
            && ops[1].radius - 80.0 > PaintedRadius(ops[2])
            // the red sweep covers exactly `angle` tenths from 12 o'clock, on the gray disc
            && ops[3].Disc? && ops[3].fill == Red
            && ops[3].center == ops[2].center && ops[3].radius == ops[2].radius
            && ops[3].fromTenths == 0 && ops[3].toTenths == -angle
            // the needle points where the sweep ends, and the cap is drawn last, on the same centre
            && ops[4].Needle? && ops[4].tenths == ops[3].toTenths
            && ops[5].Disc? && ops[5].center == ops[4].center && ops[5].radius == ops[4].length)
  {
  }

  /** The static layer does not depend on the angle: only the last three operations change with it. */
  lemma StaticIndependentOfAngle(hasCanvas: bool, hasContext: bool, size: real, a: int, b: int)
    ensures Render(hasCanvas, hasContext, size, a)[..Min(3, |Render(hasCanvas, hasContext, size, a)|)]
         == Render(hasCanvas, hasContext, size, b)[..Min(3, |Render(hasCanvas, hasContext, size, b)|)]
    ensures a != b && hasCanvas && hasContext ==> Render(hasCanvas, hasContext, size, a) != Render(hasCanvas, hasContext, size, b)
  {
  }

  function Min(a: int, b: int): int {
    if a <= b then a else b
  }
}
