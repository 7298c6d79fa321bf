# Time timer dial — a Dafny model

The repository is a React "time timer": a round dial with a red wedge for the
time left, a digital `MM:SS` readout and Start/Stop buttons. One integer,
`angle`, is both the wedge's size in tenths of a degree and the number of
seconds left (3600 = one full turn = 60 minutes).

This project models its three pieces of logic:

- `AngleControl` (`src/timer/useAngleControl.ts`): the countdown state as a
  class `Countdown` with fields `angle` and `isActive` and the methods `Start`,
  `Stop`, `SetAngle` and `Tick`. Each firing of the one-second interval is one
  `Tick`, and `Elapse(n)` is n firings in a row. `TickValue` and `Ticks` are the
  functions the methods are proved against. The lemmas give the closed form
  `max(a - n, 0)`, show the angle stays at zero, and show that a pause does not
  change the total count.
- `Timer` (`src/timer/Timer.tsx`): `formatNumber` and `formatTime` as functions,
  the defaults (size 800, initial angle 2400), and an end-to-end run: mount,
  start, three seconds, stop. `Decimal` supplies JavaScript's `toString` for
  integers and a digit reader, so that the readout can be read back.
- `CanvasDrawing` (`src/timer/CanvasDrawing.tsx`): the drag gate and the angle
  normalisation of `handleMouseMove`, the tick-mark loop of `drawCylinders`,
  and the sequence of drawing operations one repaint issues.

Directions on the dial are measured counter-clockwise from 12 o'clock, which
is how the code runs the dial: the red sweep is drawn anticlockwise and the
needle is drawn at `-angle`. So a pointer `d` degrees counter-clockwise from
12 o'clock sets `floor(10 * d)` (`CanvasDrawing.DragRecoversDirection`), not a
pointer `d` degrees clockwise.

Two further details of the drawing code are kept as written:
- `drawCircle` paints 20 pixels inside the radius it is given. So the centre
  cap has radius `size/8 - 20` and is shorter than the needle (`size/8`).
- Over exact reals a drag sets angles 0..3599. In doubles, a pointer a hair
  clockwise of 12 o'clock gives a `degreeAngle` just below 0, and
  `degreeAngle + 360` can round to 360.0, which sets 3600. Either way the angle
  stays on the dial (0..3600).

## Model

| member | source | states |
|---|---|---|
| `AngleControl.TickValue` | src/timer/useAngleControl.ts:11 | one interval firing gives max(a - 1, 0): never negative, one less when positive, 0 from 0 or below |
| `AngleControl.Ticks` | src/timer/useAngleControl.ts:9-13 | n firings never raise the angle above where it started (or 0), and leave it non-negative once at least one has fired; closed form in `TicksClamp` |
| `AngleControl.TicksClamp` | src/timer/useAngleControl.ts:9-13 | n firings from a give a when n = 0 and max(a - n, 0) otherwise |
| `AngleControl.TicksStayAtZero` | src/timer/useAngleControl.ts:11 | at 0 the countdown stays at 0 for any number of further firings (no auto-stop) |
| `AngleControl.TicksCompose` | src/timer/useAngleControl.ts:7-17 | m firings then n firings equal m + n firings |
| `AngleControl.Countdown.constructor` | src/timer/useAngleControl.ts:3-5 | mounting sets angle to the initial angle and isActive to false |
| `AngleControl.Countdown.Start` | src/timer/useAngleControl.ts:19 | start sets isActive and keeps the angle |
| `AngleControl.Countdown.Stop` | src/timer/useAngleControl.ts:20 | stop clears isActive and keeps the angle |
| `AngleControl.Countdown.SetAngle` | src/timer/useAngleControl.ts:4 | the setter stores any value unclamped and keeps isActive |
| `AngleControl.Countdown.Tick` | src/timer/useAngleControl.ts:9-13 | while active the angle becomes TickValue of the old one; while inactive nothing changes; isActive is never changed; an angle on the dial stays on it |
| `AngleControl.Countdown.Elapse` | src/timer/useAngleControl.ts:9-13 | n seconds while active give Ticks(old angle, n); while inactive the angle is fixed |
| `AngleControl.StartTwice` | src/timer/useAngleControl.ts:19 | start twice has the effect of start once |
| `AngleControl.StopTwice` | src/timer/useAngleControl.ts:20 | stop twice has the effect of stop once |
| `AngleControl.PauseAndResume` | src/timer/useAngleControl.ts:7-20 | run, stop, wait, start, run resumes where it stopped: the angle is Ticks(a, before + after) |
| `Decimal.NatToString` | src/timer/Timer.tsx:17 | num.toString() of a non-negative integer is a non-empty digit string, starting with 0 only for 0, one digit exactly below 10 |
| `Decimal.IntToString` | src/timer/Timer.tsx:17 | num.toString() is digits for num >= 0 and '-' followed by digits for num < 0; the value of those digits is in `ParseIntToString` |
| `Decimal.ParseIntToString` | src/timer/Timer.tsx:17 | the digits of num.toString() read back as num, or as -num after the minus sign of a negative num |
| `Decimal.ParseNatToString` | src/timer/Timer.tsx:17 | reading the digits of num.toString() back gives num |
| `Decimal.ParseLeadingZero` | src/timer/Timer.tsx:17 | the '0' that formatNumber prepends does not change the value read |
| `Timer.Minutes` | src/timer/Timer.tsx:19 | Math.floor(total / 60) is the m with 60m <= total < 60m + 60 |
| `Timer.Seconds` | src/timer/Timer.tsx:20 | total % 60 lies in 0..59 and completes 60 * minutes for total >= 0; for negative total it is non-positive, as JavaScript's % gives |
| `Timer.FormatNumber` | src/timer/Timer.tsx:17 | at least two characters; for num >= 0 all digits with a leading '0' exactly when num < 10, exactly two when num < 100; a negative num gets '0' before its minus sign; read-back in `FormatNumberPadded` |
| `Timer.FormatNumberPadded` | src/timer/Timer.tsx:17 | for num >= 0: at least two digits, a leading '0' exactly when num < 10, exactly two digits when num < 100, and reads back as num |
| `Timer.FormatTime` | src/timer/Timer.tsx:13-23 | at least five characters; for angle >= 0 minutes digits, ':' and two seconds digits; below 6000 exactly `MM:SS`; values in `FormatTimeRoundTrip` and `FormatTimeFixedWidth` |
| `Timer.FormatTimeRoundTrip` | src/timer/Timer.tsx:19-22 | for angle >= 0 the readout is minutes digits, ':', two seconds digits, and 60 * MM + SS == angle with SS < 60 |
| `Timer.FormatTimeFixedWidth` | src/timer/Timer.tsx:19-22 | for 0 <= angle < 6000 the readout has length 5, ':' at index 2, MM = angle / 60 and SS = angle % 60 |
| `Timer.FormatTimeInjective` | src/timer/Timer.tsx:13-23 | two non-negative angles with the same readout are equal |
| `Timer.FormatTimeExamples` | src/timer/Timer.tsx:13-23 | 2400 shows "40:00", 65 "01:05", 0 "00:00", 3600 "60:00" |
| `Timer.FormatTimeNegative` | src/timer/Timer.tsx:17-22 | an unreachable negative angle shows JavaScript's text: -65 gives "0-2:0-5" |
| `Timer.Mount` | src/timer/Timer.tsx:10-11 | the timer mounts at size 800, angle 2400, stopped, showing "40:00" |
| `Timer.StartRunStop` | src/timer/Timer.tsx:11-36 | start, three seconds: "39:57"; stop, any further seconds: still "39:57" |
| `Timer.DisplayOnDial` | src/timer/Timer.tsx:32 | for every angle on the dial (0..3600) the readout is two digits, ':', two digits, with minutes at most 60, seconds below 60, and "60:00" when the minutes reach 60 |
| `Timer.LabelMatchesReadout` | src/timer/CanvasDrawing.tsx:89-90 | the label of major mark i is i, the needle of angle 60*i points at that mark, and the readout there shows i minutes and "00" seconds |
| `CanvasDrawing.Normalize` | src/timer/CanvasDrawing.tsx:46-47 | for a degree value in [-270, 90] the result lies in [0, 360) and differs from it by 0 or one full turn |
| `CanvasDrawing.DragAngle` | src/timer/CanvasDrawing.tsx:45-48 | the angle a drag sets is floor(10 * normalised direction), in 0..3599 |
| `CanvasDrawing.DragUpdate` | src/timer/CanvasDrawing.tsx:37-48 | setAngle is called if and only if buttons == 1, the timer is stopped and the canvas is mounted, and always with a value in 0..3599 |
| `CanvasDrawing.HandleMouseMove` | src/timer/CanvasDrawing.tsx:36-51 | a mouse move sets the angle to the drag value when the gate passes and changes nothing otherwise; isActive is kept; the angle stays on the dial |
| `CanvasDrawing.PointerDegreesAt` | src/timer/CanvasDrawing.tsx:43-45 | the pointer's -atan2 direction in degrees for a position counter-clockwise from 12 o'clock lies in atan2's range |
| `CanvasDrawing.NeedleDegrees` | src/timer/CanvasDrawing.tsx:109 | the needle of an angle in 0..3599 points within one turn, at angle/10 degrees counter-clockwise, and ten times that direction floors back to the angle |
| `CanvasDrawing.DragRecoversDirection` | src/timer/CanvasDrawing.tsx:43-48 | a drag at ccw degrees from 12 o'clock sets floor(10 * ccw) |
| `CanvasDrawing.DragOntoNeedle` | src/timer/CanvasDrawing.tsx:45-48 | dragging to where the needle of angle a (0..3599) points sets exactly a |
| `CanvasDrawing.MarkAt` | src/timer/CanvasDrawing.tsx:63-90 | mark i is major iff i % 5 == 0; only majors are labelled, with 5 * (i / 5) = i; majors have width 5 and length radius - 70, minors width 3 and length radius - 80 |
| `CanvasDrawing.MajorOutranksMinor` | src/timer/CanvasDrawing.tsx:63-73 | every major mark is strictly wider and longer than every minor mark |
| `CanvasDrawing.DrawCylinders` | src/timer/CanvasDrawing.tsx:69-98 | the loop produces exactly 56 marks, pass i giving mark i for indices 0..55 |
| `CanvasDrawing.MarkDegrees` | src/timer/CanvasDrawing.tsx:70 | mark i sits at 6i degrees counter-clockwise from 12 o'clock: a multiple of 6, within one turn for i < 60 |
| `CanvasDrawing.TwelveMajors` | src/timer/CanvasDrawing.tsx:69-71 | the majors of the 56 marks are exactly 0, 5, ..., 55, twelve of them |
| `CanvasDrawing.CoveringMark` | src/timer/CanvasDrawing.tsx:69-78 | each of the 60 minute positions is drawn by one of the 56 diameter strokes, by a major one exactly when the minute is a multiple of 5 |
| `CanvasDrawing.StaticLayer` | src/timer/CanvasDrawing.tsx:20-23 | the tick marks, then a light-gray disc over a full turn on the same centre, which the minor ticks still reach past |
| `CanvasDrawing.DynamicLayer` | src/timer/CanvasDrawing.tsx:25-29 | the red sweep over exactly `angle` tenths from 12 o'clock, the needle where the sweep ends, then the cap on the needle's centre with the needle's length as radius, painted shorter than the needle |
| `CanvasDrawing.Render` | src/timer/CanvasDrawing.tsx:13-34 | nothing is drawn iff the canvas or its context is missing; otherwise six operations: resize, the static layer, then the dynamic layer |
| `CanvasDrawing.RenderLayout` | src/timer/CanvasDrawing.tsx:13-34 | nothing is drawn iff the canvas or its context is missing; otherwise: resize, ticks, gray disc, red sweep of exactly angle tenths from 0, needle at the sweep's end, centre cap last; the ticks reach past the gray disc |
| `CanvasDrawing.StaticIndependentOfAngle` | src/timer/CanvasDrawing.tsx:20-32 | the first three operations do not depend on the angle, and different angles give different repaints |

## Left out

- Real time: `setInterval`, `clearInterval`, and the effect that re-subscribes on every change of `isActive` or `angle`. A second is one `Tick` call, and the model does not capture when within a second a tick fires.
- Trigonometry and pixel geometry: tick end points and label positions, the radians in `drawMovingCylinder` and `drawCircle`, and `Math.atan2` itself. The drag model takes `-atan2` in degrees as input, with atan2's range as a precondition. `PointerDegreesAt` states atan2's value for a direction rather than computing it.
- Floating point: `Normalize` and `DragAngle` use exact reals, so double rounding is not modelled. This covers `* (180 / Math.PI)` and `* 10` near a tenth-of-a-degree boundary. It also covers `degreeAngle + 360` for a `degreeAngle` just below 0: in doubles that sum can round to 360.0 and set 3600, outside the 0..3599 that `DragAngle` promises over reals.
- JavaScript numbers: angles are integers, which all values that reach the state are. No overflow or width limits are modelled.
- Canvas calls and styles (`beginPath`, `stroke`, fonts, alignment), `getBoundingClientRect`, React hooks, refs, JSX and CSS. A repaint is a list of drawing operations. The canvas element and rectangle lookups become the `hasCanvas`, `hasContext` and `canvasMounted` flags.
- `src/index.tsx` and `src/App.tsx` (mounting the root and reporting web vitals) are not part of this model.
- The functional-update form of the React setter is modelled only where the source uses it, in the tick.
