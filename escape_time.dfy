/**
  The escape-time recurrence of one grid point, as the two loops of
  fractal_maker.py run it, stated on values.

  Each grid point is updated independently of every other one, so the
  array loops of `mandelbrot` and `julia_set` are, point by point, a fold of
  one "pass" function over the pass indices 0 .. max_iterations-1. This module
  defines those passes, the orbit they follow, and proves what the loops
  promise: inactive points are frozen, the mask never comes back on, and the
  divergence time is written once (Mandelbrot) or overwritten while active
  (Julia).
*/
module EscapeTime {

  datatype Option<T> = None | Some(value: T)

  /** A complex number over exact reals (the source uses IEEE complex128). */
  datatype Complex = Complex(re: real, im: real)

  const Zero: Complex := Complex(0.0, 0.0)

  function Add(a: Complex, b: Complex): Complex
  {
    Complex(a.re + b.re, a.im + b.im)
  }

  /** Real multiplication, kept as a function of its own so that each product is one term. */
  function Mul(x: real, y: real): real
  {
    x * y
  }

  function Square(a: Complex): Complex
  {
    Complex(Mul(a.re, a.re) - Mul(a.im, a.im), 2.0 * Mul(a.re, a.im))
  }

  /** One step of the quadratic recurrence z := z**2 + c. */
  function Step(z: Complex, c: Complex): Complex
  {
    Add(Square(z), c)
  }

  /** |z| > 2, compared through the squared modulus so that no square root is needed. */
  predicate Escaped(z: Complex)
  {
    Mul(z.re, z.re) + Mul(z.im, z.im) > 4.0
  }

  /** The orbit value after n steps of z := z**2 + c from z0. */
  function Orbit(z0: Complex, c: Complex, n: nat): Complex
  {
    if n == 0 then z0 else Step(Orbit(z0, c, n - 1), c)
  }

  /** Pass i (counting from 0) leaves the orbit outside the disc of radius 2. */
  predicate EscapesAt(z0: Complex, c: Complex, i: nat)
  {
    Escaped(Orbit(z0, c, i + 1))
  }

  /** The first pass among 0 .. n-1 after which the orbit lies outside the disc, if any. */
  function FirstEscape(z0: Complex, c: Complex, n: nat): (r: Option<nat>)
    ensures r.Some? ==> r.value < n && EscapesAt(z0, c, r.value)
    ensures r.Some? ==> forall j :: 0 <= j < r.value ==> !EscapesAt(z0, c, j)
    ensures r.None? ==> forall j :: 0 <= j < n ==> !EscapesAt(z0, c, j)
  {
    if n == 0 then None
    else
      match FirstEscape(z0, c, n - 1)
      case Some(k) => Some(k)
      case None => if EscapesAt(z0, c, n - 1) then Some(n - 1) else None
  }

  /**
    What is known of the smoothing term
      trunc(i - log2(max(1, log2(i if i > 0 else 1))))
    without modelling log2: its values at 0, 1, 2 and 4, and that it lies in [0, i].
  */
  ghost predicate SmoothLaw(smooth: nat -> int)
  {
    && smooth(0) == 0
    && smooth(1) == 1
    && smooth(2) == 2
    && smooth(4) == 3
    && forall i: nat :: 0 <= smooth(i) <= i
  }

  function Pow2(k: nat): nat
  {
    if k == 0 then 1 else 2 * Pow2(k - 1)
  }

  /**
    The least j in k .. i with i <= 2^(2^j), i.e. ceil(log2(log2(i))) when
    searched from k = 1 for i >= 3; the search stops at i.
  */
  function CeilLogLog(i: nat, k: nat): (r: nat)
    ensures k <= r
    ensures k <= i ==> r <= i
    decreases i - k
  {
    if k >= i || i <= Pow2(Pow2(k)) then k else CeilLogLog(i, k + 1)
  }

  /**
    The smoothing term evaluated over exact reals: for i <= 2 the inner
    logarithms give 0 and the term is i; for i >= 3 it is i - ceil(log2(log2(i))).
  */
  function ExactSmooth(i: nat): int
  {
    if i <= 2 then i else i - CeilLogLog(i, 1)
  }

  /** The exact-real smoothing term satisfies the law the model relies on. */
  lemma ExactSmoothObeysLaw()
    ensures SmoothLaw(ExactSmooth)
  {
    assert ExactSmooth(4) == 3 by {
      assert Pow2(Pow2(1)) == 4;
    }
  }

  /** The state of one grid point: z[p], m[p] and div_time[p]. */
  datatype PointState = PointState(z: Complex, active: bool, divTime: int)

  function Start(z0: Complex): PointState
  {
    PointState(z0, true, 0)
  }

  /**
    Pass i of `mandelbrot` at one point: step the orbit if active, record
    smooth(i) if the point was active and now lies outside the disc, then
    clear the mask wherever the orbit lies outside the disc.
  */
  function MandelbrotPass(s: PointState, c: Complex, i: nat, smooth: nat -> int): (r: PointState)
    ensures !s.active ==> r == s
    ensures r.active ==> s.active
    ensures r.divTime != s.divTime ==> s.active && !r.active
    ensures s.active && !r.active ==> r.divTime == smooth(i)
  {
    var z := if s.active then Step(s.z, c) else s.z;
    var diverged := s.active && Escaped(z);
    var divTime := if diverged then smooth(i) else s.divTime;
    var active := if Escaped(z) then false else s.active;
    PointState(z, active, divTime)
  }

  /**
    Pass i of `julia_set` at one point: step the orbit if active, clear the
    mask wherever the orbit lies outside the disc, then write smooth(i) to
    every point still active.
  */
  function JuliaPass(s: PointState, c: Complex, i: nat, smooth: nat -> int): (r: PointState)
    ensures !s.active ==> r == s
    ensures r.active ==> s.active
    ensures r.active ==> r.divTime == smooth(i)
    ensures !r.active ==> r.divTime == s.divTime
  {
    var z := if s.active then Step(s.z, c) else s.z;
    var active := if Escaped(z) then false else s.active;
    var divTime := if active then smooth(i) else s.divTime;
    PointState(z, active, divTime)
  }

  /** The state of a point after passes 0 .. n-1 of `mandelbrot`, starting from Start(z0). */
  function MandelbrotRun(z0: Complex, c: Complex, n: nat, smooth: nat -> int): (r: PointState)
    ensures r.active ==> r.divTime == 0
  {
    if n == 0 then Start(z0) else MandelbrotPass(MandelbrotRun(z0, c, n - 1, smooth), c, n - 1, smooth)
  }

  /** The state of a point after passes 0 .. n-1 of `julia_set`, starting from Start(z0). */
  function JuliaRun(z0: Complex, c: Complex, n: nat, smooth: nat -> int): (r: PointState)
    ensures r.active ==> r.divTime == if n == 0 then 0 else smooth(n - 1)
  {
    if n == 0 then Start(z0) else JuliaPass(JuliaRun(z0, c, n - 1, smooth), c, n - 1, smooth)
  }

  /**
    Reference outcome of `mandelbrot` at one point after n passes: a point
    whose orbit first leaves the disc in pass k is frozen at the orbit value
    after k+1 steps with div_time smooth(k); any other point is still active,
    at the orbit value after n steps, with div_time still 0.
  */
  function MandelbrotOutcome(z0: Complex, c: Complex, n: nat, smooth: nat -> int): PointState
  {
    match FirstEscape(z0, c, n)
    case Some(k) => PointState(Orbit(z0, c, k + 1), false, smooth(k))
    case None => PointState(Orbit(z0, c, n), true, 0)
  }

  /**
    Reference outcome of `julia_set` at one point after n passes: a point
    that first leaves the disc in pass k keeps the value written in pass k-1
    (0 if k = 0); a point that never leaves holds the value of the last pass.
  */
  function JuliaOutcome(z0: Complex, c: Complex, n: nat, smooth: nat -> int): PointState
  {
    match FirstEscape(z0, c, n)
    case Some(k) => PointState(Orbit(z0, c, k + 1), false, if k == 0 then 0 else smooth(k - 1))
    case None => PointState(Orbit(z0, c, n), true, if n == 0 then 0 else smooth(n - 1))
  }

  lemma {:induction false} MandelbrotRunIsOutcome(z0: Complex, c: Complex, n: nat, smooth: nat -> int)
    ensures MandelbrotRun(z0, c, n, smooth) == MandelbrotOutcome(z0, c, n, smooth)
  {
    if n > 0 {
      MandelbrotRunIsOutcome(z0, c, n - 1, smooth);
    }
  }

  lemma {:induction false} JuliaRunIsOutcome(z0: Complex, c: Complex, n: nat, smooth: nat -> int)
    ensures JuliaRun(z0, c, n, smooth) == JuliaOutcome(z0, c, n, smooth)
  {
    if n > 0 {
      JuliaRunIsOutcome(z0, c, n - 1, smooth);
    }
  }

  /**
    Once a point's mask is off after k passes of `mandelbrot`, every later
    pass leaves its whole state alone: the mask stays off, the orbit value
    is frozen and div_time is not written again.
  */
  lemma {:induction false} MandelbrotInactiveFrozen(z0: Complex, c: Complex, k: nat, n: nat, smooth: nat -> int)
    requires k <= n
    requires !MandelbrotRun(z0, c, k, smooth).active
    ensures MandelbrotRun(z0, c, n, smooth) == MandelbrotRun(z0, c, k, smooth)
  {
    if n > k {
      MandelbrotInactiveFrozen(z0, c, k, n - 1, smooth);
    }
  }

  /** The same freezing for `julia_set`. */
  lemma {:induction false} JuliaInactiveFrozen(z0: Complex, c: Complex, k: nat, n: nat, smooth: nat -> int)
    requires k <= n
    requires !JuliaRun(z0, c, k, smooth).active
    ensures JuliaRun(z0, c, n, smooth) == JuliaRun(z0, c, k, smooth)
  {
    if n > k {
      JuliaInactiveFrozen(z0, c, k, n - 1, smooth);
    }
  }

  /** A point active after n passes was active after every earlier number of passes. */
  lemma {:induction false} MandelbrotMaskMonotone(z0: Complex, c: Complex, k: nat, n: nat, smooth: nat -> int)
    requires k <= n
    ensures MandelbrotRun(z0, c, n, smooth).active ==> MandelbrotRun(z0, c, k, smooth).active
  {
    if !MandelbrotRun(z0, c, k, smooth).active {
      MandelbrotInactiveFrozen(z0, c, k, n, smooth);
    }
  }

  lemma {:induction false} JuliaMaskMonotone(z0: Complex, c: Complex, k: nat, n: nat, smooth: nat -> int)
    requires k <= n
    ensures JuliaRun(z0, c, n, smooth).active ==> JuliaRun(z0, c, k, smooth).active
  {
    if !JuliaRun(z0, c, k, smooth).active {
      JuliaInactiveFrozen(z0, c, k, n, smooth);
    }
  }

  /**
    In `mandelbrot`, div_time is written at most once: if pass i changes
    it, then pass i is the first pass in which the orbit leaves the disc, for
    every budget n that includes pass i.
  */
  lemma {:induction false} MandelbrotWritesOnce(z0: Complex, c: Complex, i: nat, n: nat, smooth: nat -> int)
    requires i < n
    requires MandelbrotRun(z0, c, i + 1, smooth).divTime != MandelbrotRun(z0, c, i, smooth).divTime
    ensures FirstEscape(z0, c, n) == Some(i)
  {
    MandelbrotRunIsOutcome(z0, c, i, smooth);
    MandelbrotRunIsOutcome(z0, c, i + 1, smooth);
    FirstEscapeStable(z0, c, i + 1, n);
  }

  /** Once the first escape lies within the budget, a larger budget finds the same one. */
  lemma {:induction false} FirstEscapeStable(z0: Complex, c: Complex, k: nat, n: nat)
    requires k <= n
    requires FirstEscape(z0, c, k).Some?
    ensures FirstEscape(z0, c, n) == FirstEscape(z0, c, k)
  {
    if n > k {
      FirstEscapeStable(z0, c, k, n - 1);
    }
  }

  /** The point 0, whatever expression denotes it. */
  predicate IsZero(z: Complex)
  {
    z.re == 0.0 && z.im == 0.0
  }

  lemma MulByZero(x: real, y: real)
    requires x == 0.0
    ensures Mul(x, y) == 0.0
  {
  }

  /** From z = 0 one step lands on the constant itself. */
  lemma StepFromZero(z: Complex, c: Complex)
    requires IsZero(z)
    ensures Step(z, c) == c
  {
    MulByZero(z.re, z.re);
    MulByZero(z.im, z.im);
    MulByZero(z.re, z.im);
  }

  /** 0 lies inside the disc of radius 2. */
  lemma ZeroInside(z: Complex)
    requires IsZero(z)
    ensures !Escaped(z)
  {
    MulByZero(z.re, z.re);
    MulByZero(z.im, z.im);
  }

  /** From z0 = 0 with c = 0 the orbit stays at 0. */
  lemma {:induction false} OrbitStaysZero(z0: Complex, c: Complex, k: nat)
    requires IsZero(z0) && IsZero(c)
    ensures IsZero(Orbit(z0, c, k))
  {
    if k > 0 {
      OrbitStaysZero(z0, c, k - 1);
      StepFromZero(Orbit(z0, c, k - 1), c);
    }
  }

  /** ... and so never leaves the disc. */
  lemma NeverEscapesFromOrigin(z0: Complex, c: Complex, n: nat)
    requires IsZero(z0) && IsZero(c)
    ensures FirstEscape(z0, c, n) == None
  {
    if FirstEscape(z0, c, n).Some? {
      var k := FirstEscape(z0, c, n).value;
      OrbitStaysZero(z0, c, k + 1);
      ZeroInside(Orbit(z0, c, k + 1));
    }
  }

  /**
    The Mandelbrot point c = 0 never escapes: its orbit stays at 0, its mask
    stays on and its div_time keeps 0 after any number of passes.
  */
  lemma MandelbrotOriginStaysZero(z0: Complex, c: Complex, n: nat, smooth: nat -> int)
    requires IsZero(z0) && IsZero(c)
    ensures MandelbrotRun(z0, c, n, smooth) == Start(z0)
  {
    NeverEscapesFromOrigin(z0, c, n);
    OrbitStaysZero(z0, c, n);
    MandelbrotRunIsOutcome(z0, c, n, smooth);
  }

  /** An orbit that leaves the disc in pass 0 has its first escape there, whatever the budget. */
  lemma FirstEscapeAtZero(z0: Complex, c: Complex, n: nat)
    requires 1 <= n
    requires EscapesAt(z0, c, 0)
    ensures FirstEscape(z0, c, n) == Some(0)
  {
  }

  /** A Mandelbrot point with |c| > 2 escapes in pass 0 and records smooth(0) = 0. */
  lemma MandelbrotFarPointEscapesAtOnce(z0: Complex, c: Complex, n: nat, smooth: nat -> int)
    requires IsZero(z0)
    requires Escaped(c)
    requires 1 <= n
    requires SmoothLaw(smooth)
    ensures MandelbrotRun(z0, c, n, smooth) == PointState(c, false, 0)
  {
    StepFromZero(z0, c);
    assert Orbit(z0, c, 1) == c;
    FirstEscapeAtZero(z0, c, n);
    MandelbrotRunIsOutcome(z0, c, n, smooth);
  }

  /**
    Every div_time `mandelbrot` records lies in [0, n-1] after n >= 1
    passes, and is 0 when there are no passes.
  */
  lemma MandelbrotDivTimeBounds(z0: Complex, c: Complex, n: nat, smooth: nat -> int)
    requires SmoothLaw(smooth)
    ensures var t := MandelbrotRun(z0, c, n, smooth).divTime;
      0 <= t && (n == 0 ==> t == 0) && (n >= 1 ==> t <= n - 1)
  {
    MandelbrotRunIsOutcome(z0, c, n, smooth);
  }

  /** The same bounds for `julia_set`. */
  lemma JuliaDivTimeBounds(z0: Complex, c: Complex, n: nat, smooth: nat -> int)
    requires SmoothLaw(smooth)
    ensures var t := JuliaRun(z0, c, n, smooth).divTime;
      0 <= t && (n == 0 ==> t == 0) && (n >= 1 ==> t <= n - 1)
  {
    JuliaRunIsOutcome(z0, c, n, smooth);
  }
}
