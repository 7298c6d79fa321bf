/**
  The `useAngleControl` hook: an integer `angle`, read both as tenths of a degree
  on the dial and as seconds left (3600 = one turn = 60 minutes), and an
  `isActive` flag. While active, an interval fires once per second and moves the
  angle one step towards zero. The real clock is not modelled: each firing of
  the interval is one call of `Tick`.
 */
module AngleControl {

  function Max(a: int, b: int): int {
    if a >= b then a else b
  }

  /** The interval callback's update `prevAngle > 0 ? prevAngle - 1 : 0`. */
  function TickValue(a: int): (r: int)
    ensures r >= 0
    ensures r == Max(a - 1, 0)
  {
    if a > 0 then a - 1 else 0
  }

  /** The angle after `n` firings of the interval, starting from `a`: never negative after a firing, never above where it started. */
  function Ticks(a: int, n: nat): (r: int)
    ensures n > 0 ==> r >= 0
    ensures r <= Max(a, 0)
    decreases n
  {
    if n == 0 then a else TickValue(Ticks(a, n - 1))
  }

  /** n firings from `a` give max(a - n, 0): one step each, clamped at zero. */
  lemma {:induction false} TicksClamp(a: int, n: nat)
    ensures Ticks(a, n) == if n == 0 then a else Max(a - n, 0)
    decreases n
  {
    if n > 0 {
      TicksClamp(a, n - 1);
    }
  }

  /** Once the countdown has reached zero it stays there: it does not stop itself. */
  lemma TicksStayAtZero(n: nat)
    ensures Ticks(0, n) == 0
  {
  }

  /** Splitting a run of firings into two (a pause in between) changes nothing. */
  lemma {:induction false} TicksCompose(a: int, m: nat, n: nat)
    ensures Ticks(Ticks(a, m), n) == Ticks(a, m + n)
    decreases n
  {
    if n > 0 {
      TicksCompose(a, m, n - 1);
    }
  }

  /** The state returned by `useAngleControl`. */
  class Countdown {
    var angle: int
    var isActive: bool

    /** Every angle the application can put here lies on one turn of the dial. */
    ghost predicate OnDial()
      reads this
    {
      0 <= angle <= 3600
    }

    /** Mounting: `useState(initialAngle)` and `useState(false)`. */
    constructor (initialAngle: int)
      ensures angle == initialAngle && !isActive
    {
      angle := initialAngle;
      isActive := false;
    }

    method Start()
      modifies this
      ensures isActive
      ensures angle == old(angle)
    {
      isActive := true;
    }

    method Stop()
      modifies this
      ensures !isActive
      ensures angle == old(angle)
    {
      isActive := false;
    }

    /** The raw setter: any value is taken, nothing is clamped, the flag is kept. */
    method SetAngle(newAngle: int)
      modifies this
      ensures angle == newAngle
      ensures isActive == old(isActive)
    {
      angle := newAngle;
    }

    /**
      One second of wall-clock time. An interval exists only while active, so an
      inactive countdown is left as it is; the flag is never changed here.
     */
    method Tick()
      modifies this
      ensures isActive == old(isActive)
      ensures angle == if old(isActive) then TickValue(old(angle)) else old(angle)
      ensures old(OnDial()) ==> OnDial()
    {
      if isActive {
        angle := if angle > 0 then angle - 1 else 0;
      }
    }

    /** `seconds` consecutive seconds with no start, stop or drag in between. */
    method Elapse(seconds: nat)
      modifies this
      ensures isActive == old(isActive)
      ensures angle == if old(isActive) then Ticks(old(angle), seconds) else old(angle)
      ensures old(OnDial()) ==> OnDial()
    {
      var i := 0;
      while i < seconds
        invariant 0 <= i <= seconds
        invariant isActive == old(isActive)
        invariant angle == if old(isActive) then Ticks(old(angle), i) else old(angle)
        invariant old(OnDial()) ==> OnDial()
      {
        Tick();
        i := i + 1;
      }
    }
  }

  /** Pressing Start twice has the effect of pressing it once. */
  method StartTwice(c: Countdown)
    modifies c
    ensures c.isActive && c.angle == old(c.angle)
  {
    c.Start();
    c.Start();
  }

  /** Pressing Stop twice has the effect of pressing it once. */
  method StopTwice(c: Countdown)
    modifies c
    ensures !c.isActive && c.angle == old(c.angle)
  {
    c.Stop();
    c.Stop();
  }

  /**
    Run for `before` seconds, stop, let `paused` seconds pass, start again and run
    for `after` seconds: the countdown resumes where it stopped, as if it had run
    for `before + after` seconds in one go.
   */
  method PauseAndResume(c: Countdown, before: nat, paused: nat, after: nat)
    requires c.isActive
    modifies c
    ensures c.isActive
    ensures c.angle == Ticks(old(c.angle), before + after)
  {
    ghost var a := c.angle;
    c.Elapse(before);
    c.Stop();
    c.Elapse(paused);
    c.Start();
    c.Elapse(after);
    TicksCompose(a, before, after);
  }
}
