/**
  The two array generators of fractal_maker.py, `mandelbrot` and
  `julia_set`: the viewport derived from centre, zoom and image shape, the
  grid of sample points `np.linspace` spreads over it, and the masked
  in-place loop over the arrays z, m and div_time.

  Each method's loop is proved against the per-point fold of module
  EscapeTime: after i passes, every grid point holds exactly the state that
  i passes of the recurrence give it, so every fact proved there about one
  point (frozen inactive points, a monotone mask, write-once or overwrite
  discipline for div_time, bounds on div_time) holds for every cell of the
  returned array.
*/
module FractalMaker {
  import opened EscapeTime

  /** The exceptions Python raises before the loop starts. */
  datatype FractalError =
    | ZeroDivision         // width == 0 or zoom == 0: ZeroDivisionError in the viewport arithmetic
    | NegativeSampleCount  // width < 0 or height < 0: np.linspace rejects a negative number of samples

  datatype Result<T> = Ok(value: T) | Err(error: FractalError)

  /** The region of the complex plane that is sampled. */
  datatype Viewport = Viewport(xFrom: real, xTo: real, yFrom: real, yTo: real)

  /**
    The viewport of both generators: half-width 1.5/zoom around x and
    half-height 1.5*height/width/zoom around y.
  */
  function MakeViewport(height: int, width: int, x: real, y: real, zoom: int): (r: Result<Viewport>)
    ensures r.Err? <==> width == 0 || zoom == 0
    ensures r.Err? ==> r.error == ZeroDivision
    ensures r.Ok? ==> (r.value.xFrom + r.value.xTo) / 2.0 == x
    ensures r.Ok? ==> (r.value.yFrom + r.value.yTo) / 2.0 == y
    ensures r.Ok? ==> (r.value.xTo - r.value.xFrom) * zoom as real == 3.0
    ensures r.Ok? ==> (r.value.yTo - r.value.yFrom) * width as real == (r.value.xTo - r.value.xFrom) * height as real
  {
    if width == 0 then Err(ZeroDivision)
    else
      var xWidth := 1.5;
      var yHeight := 1.5 * height as real / width as real;
      if zoom == 0 then Err(ZeroDivision)
      else
        var vp := Viewport(x - xWidth / zoom as real, x + xWidth / zoom as real,
                           y - yHeight / zoom as real, y + yHeight / zoom as real);
        AspectRatio(height, width, zoom);
        Ok(vp)
  }

  lemma AspectRatio(height: int, width: int, zoom: int)
    requires width != 0 && zoom != 0
    ensures 2.0 * (1.5 * height as real / width as real / zoom as real) * width as real
         == 2.0 * (1.5 / zoom as real) * height as real
  {
    var h, w, z := height as real, width as real, zoom as real;
    calc {
      2.0 * (1.5 * h / w / z) * w;
      3.0 * h / z;
      2.0 * (1.5 / z) * h;
    }
  }

  /**
    `np.linspace(start, stop, num)`: num evenly spaced samples from start to
    stop inclusive; numpy writes the last sample as stop itself.
  */
  function Linspace(start: real, stop: real, num: nat): (r: seq<real>)
    ensures |r| == num
    ensures num >= 1 ==> r[0] == start
    ensures num >= 2 ==> r[num - 1] == stop
    ensures num >= 2 ==> forall k :: 0 <= k < num - 1 ==> r[k + 1] - r[k] == (stop - start) / (num - 1) as real
  {
    if num <= 1 then seq(num, k => start)
    else
      var step := (stop - start) / (num - 1) as real;
      var r := seq(num, k => if k == num - 1 then stop else start + k as real * step);
      LastStep(start, stop, num);
      r
  }

  lemma LastStep(start: real, stop: real, num: nat)
    requires num >= 2
    ensures start + (num - 2) as real * ((stop - start) / (num - 1) as real) + (stop - start) / (num - 1) as real == stop
  {
    var d := (stop - start) / (num - 1) as real;
    calc {
      start + (num - 2) as real * d + d;
      start + (num - 1) as real * d;
      stop;
    }
  }

  /**
    The height x width grid `x + 1j * y` of the source: column q has real
    part xs[q], row p has imaginary part ys[p].
  */
  function SampleGrid(vp: Viewport, height: nat, width: nat): (g: seq<seq<Complex>>)
    ensures |g| == height
    ensures forall p :: 0 <= p < height ==> |g[p]| == width
    ensures forall p, q :: 0 <= p < height && 0 <= q < width ==>
      g[p][q].re == Linspace(vp.xFrom, vp.xTo, width)[q] && g[p][q].im == Linspace(vp.yFrom, vp.yTo, height)[p]
  {
    var xs := Linspace(vp.xFrom, vp.xTo, width);
    var ys := Linspace(vp.yFrom, vp.yTo, height);
    seq(height, p requires 0 <= p < height => seq(width, q requires 0 <= q < width => Complex(xs[q], ys[p])))
  }

  /** The grid of sample points, or the exception Python raises on the way to it. */
  function Grid(height: int, width: int, x: real, y: real, zoom: int): (r: Result<seq<seq<Complex>>>)
    ensures r.Err? <==> width == 0 || zoom == 0 || width < 0 || height < 0
    ensures width == 0 || zoom == 0 ==> r == Err(ZeroDivision)
    ensures r.Err? && width != 0 && zoom != 0 ==> r.error == NegativeSampleCount
    ensures r.Ok? ==> |r.value| == height && forall p :: 0 <= p < height ==> |r.value[p]| == width
  {
    match MakeViewport(height, width, x, y, zoom)
    case Err(e) => Err(e)
    case Ok(vp) =>
      if width < 0 || height < 0 then Err(NegativeSampleCount)
      else Ok(SampleGrid(vp, height, width))
  }

  /**
    The sample grid spans the viewport corner to corner, every row carries
    the same real parts, every column the same imaginary parts, and the
    spacing is even in both directions.
  */
  lemma GridSpansViewport(height: int, width: int, x: real, y: real, zoom: int)
    requires width > 0 && height >= 0 && zoom != 0
    ensures var vp := MakeViewport(height, width, x, y, zoom).value;
      var g := Grid(height, width, x, y, zoom).value;
      && (height >= 1 && width >= 1 ==> g[0][0] == Complex(vp.xFrom, vp.yFrom))
      && (height >= 2 && width >= 2 ==> g[height - 1][width - 1] == Complex(vp.xTo, vp.yTo))
      && (height >= 1 && width >= 2 ==> g[0][width - 1].re == vp.xTo)
      && (height >= 2 && width >= 1 ==> g[height - 1][0].im == vp.yTo)
      && (forall p, q :: 0 <= p < height && 0 <= q < width ==> g[p][q].re == g[0][q].re && g[p][q].im == g[p][0].im)
      && (width >= 2 ==> forall p, q :: 0 <= p < height && 0 <= q < width - 1 ==>
            g[p][q + 1].re - g[p][q].re == (vp.xTo - vp.xFrom) / (width - 1) as real)
      && (height >= 2 ==> forall p, q {:trigger g[p][q]} :: 0 <= p < height - 1 && 0 <= q < width ==>
            g[p + 1][q].im - g[p][q].im == (vp.yTo - vp.yFrom) / (height - 1) as real)
  {
    var vp := MakeViewport(height, width, x, y, zoom).value;
    var xs := Linspace(vp.xFrom, vp.xTo, width);
    var ys := Linspace(vp.yFrom, vp.yTo, height);
    assert Grid(height, width, x, y, zoom).value == SampleGrid(vp, height, width);
  }

  /** `range(max_iterations)` runs no pass at all when max_iterations is negative. */
  function Iterations(maxIterations: int): nat
  {
    if maxIterations < 0 then 0 else maxIterations
  }

  /** The state of grid point (p, q) held across the arrays z, m and div_time. */
  function StateAt(z: array2<Complex>, m: array2<bool>, divTime: array2<int>, p: int, q: int): PointState
    requires 0 <= p < z.Length0 && 0 <= q < z.Length1
    requires 0 <= p < m.Length0 && 0 <= q < m.Length1
    requires 0 <= p < divTime.Length0 && 0 <= q < divTime.Length1
    reads z, m, divTime
  {
    PointState(z[p, q], m[p, q], divTime[p, q])
  }

  /** z, c, m and div_time all have the shape height x width. */
  predicate SameShape(z: array2<Complex>, c: array2<Complex>, m: array2<bool>, divTime: array2<int>)
  {
    && c.Length0 == z.Length0 && c.Length1 == z.Length1
    && m.Length0 == z.Length0 && m.Length1 == z.Length1
    && divTime.Length0 == z.Length0 && divTime.Length1 == z.Length1
  }

  /** `np.full((height, width), v)`, and `np.zeros` for v = 0. */
  method Full<T>(height: nat, width: nat, v: T) returns (a: array2<T>)
    ensures fresh(a) && a.Length0 == height && a.Length1 == width
    ensures forall p, q :: 0 <= p < height && 0 <= q < width ==> a[p, q] == v
  {
    a := new T[height, width]((p, q) => v);
  }

  /** The grid of sample points as a fresh height x width array. */
  method ToArray(grid: seq<seq<Complex>>, height: nat, width: nat) returns (a: array2<Complex>)
    requires |grid| == height && forall p :: 0 <= p < height ==> |grid[p]| == width
    ensures fresh(a) && a.Length0 == height && a.Length1 == width
    ensures forall p, q :: 0 <= p < height && 0 <= q < width ==> a[p, q] == grid[p][q]
  {
    a := new Complex[height, width];
    forall p, q | 0 <= p < height && 0 <= q < width {
      a[p, q] := grid[p][q];
    }
  }

  /**
    One pass of the `mandelbrot` loop:
      z[m] = z[m]**2 + c[m]; diverged = m & (|z| > 2);
      div_time[diverged] = smooth(i); m[|z| > 2] = False.
  */
  method MandelbrotPassInPlace(z: array2<Complex>, c: array2<Complex>, m: array2<bool>, divTime: array2<int>,
                               i: nat, smooth: nat -> int)
    requires SameShape(z, c, m, divTime)
    requires z != c
    modifies z, m, divTime
    ensures forall p, q :: 0 <= p < z.Length0 && 0 <= q < z.Length1 ==>
      StateAt(z, m, divTime, p, q) == MandelbrotPass(old(StateAt(z, m, divTime, p, q)), c[p, q], i, smooth)
  {
    forall p, q | 0 <= p < z.Length0 && 0 <= q < z.Length1 && m[p, q] {
      z[p, q] := Step(z[p, q], c[p, q]);
    }
    var diverged := new bool[z.Length0, z.Length1];
    forall p, q | 0 <= p < z.Length0 && 0 <= q < z.Length1 {
      diverged[p, q] := m[p, q] && Escaped(z[p, q]);
    }
    forall p, q | 0 <= p < z.Length0 && 0 <= q < z.Length1 && diverged[p, q] {
      divTime[p, q] := smooth(i);
    }
    forall p, q | 0 <= p < z.Length0 && 0 <= q < z.Length1 && Escaped(z[p, q]) {
      m[p, q] := false;
    }
  }

  /**
    One pass of the `julia_set` loop:
      z[m] = z[m]**2 + c[m]; m[|z| > 2] = False; div_time[m] = smooth(i).
  */
  method JuliaPassInPlace(z: array2<Complex>, c: array2<Complex>, m: array2<bool>, divTime: array2<int>,
                          i: nat, smooth: nat -> int)
    requires SameShape(z, c, m, divTime)
    requires z != c
    modifies z, m, divTime
    ensures forall p, q :: 0 <= p < z.Length0 && 0 <= q < z.Length1 ==>
      StateAt(z, m, divTime, p, q) == JuliaPass(old(StateAt(z, m, divTime, p, q)), c[p, q], i, smooth)
  {
    forall p, q | 0 <= p < z.Length0 && 0 <= q < z.Length1 && m[p, q] {
      z[p, q] := Step(z[p, q], c[p, q]);
    }
    forall p, q | 0 <= p < z.Length0 && 0 <= q < z.Length1 && Escaped(z[p, q]) {
      m[p, q] := false;
    }
    forall p, q | 0 <= p < z.Length0 && 0 <= q < z.Length1 && m[p, q] {
      divTime[p, q] := smooth(i);
    }
  }

  /**
    `mandelbrot(height, width, x, y, zoom, max_iterations)`: every cell
    (p, q) of the result is the div_time of grid point c = grid[p][q] after
    the passes 0 .. max_iterations-1 of the recurrence from z = 0.
  */
  method Mandelbrot(smooth: nat -> int, height: int, width: int, x: real := -0.5, y: real := 0.0,
                    zoom: int := 1, maxIterations: int := 100)
    returns (r: Result<array2<int>>)
    ensures r.Err? <==> Grid(height, width, x, y, zoom).Err?
    ensures r.Err? ==> r.error == Grid(height, width, x, y, zoom).error
    ensures r.Ok? ==> fresh(r.value) && r.value.Length0 == height && r.value.Length1 == width
    ensures r.Ok? ==> forall p, q :: 0 <= p < height && 0 <= q < width ==>
      r.value[p, q] == MandelbrotRun(Zero, Grid(height, width, x, y, zoom).value[p][q], Iterations(maxIterations), smooth).divTime
  {
    var g := Grid(height, width, x, y, zoom);
    if g.Err? {
      return Err(g.error);
    }
    var grid := g.value;
    var c := ToArray(grid, height, width);
    var z := Full(height, width, Zero);
    var divTime := Full(height, width, 0);
    var m := Full(height, width, true);
    var n := Iterations(maxIterations);
    for i := 0 to n
      invariant forall p, q :: 0 <= p < height && 0 <= q < width ==> c[p, q] == grid[p][q]
      invariant forall p, q :: 0 <= p < height && 0 <= q < width ==>
        StateAt(z, m, divTime, p, q) == MandelbrotRun(Zero, grid[p][q], i, smooth)
    {
      MandelbrotPassInPlace(z, c, m, divTime, i, smooth);
    }
    return Ok(divTime);
  }

  /**
    `julia_set(c, height, width, x, y, zoom, max_iterations)`: every cell
    (p, q) of the result is the div_time of the orbit that starts at grid
    point grid[p][q] and is driven by the one constant c.
  */
  method JuliaSet(smooth: nat -> int, c: Complex := Complex(-0.4, 0.6), height: int := 512, width: int := 512,
                  x: real := 0.0, y: real := 0.0, zoom: int := 1, maxIterations: int := 100)
    returns (r: Result<array2<int>>)
    ensures r.Err? <==> Grid(height, width, x, y, zoom).Err?
    ensures r.Err? ==> r.error == Grid(height, width, x, y, zoom).error
    ensures r.Ok? ==> fresh(r.value) && r.value.Length0 == height && r.value.Length1 == width
    ensures r.Ok? ==> forall p, q :: 0 <= p < height && 0 <= q < width ==>
      r.value[p, q] == JuliaRun(Grid(height, width, x, y, zoom).value[p][q], c, Iterations(maxIterations), smooth).divTime
  {
    var g := Grid(height, width, x, y, zoom);
    if g.Err? {
      return Err(g.error);
    }
    var grid := g.value;
    var z := ToArray(grid, height, width);
    var cs := Full(height, width, c);
    var divTime := Full(height, width, 0);
    var m := Full(height, width, true);
    var n := Iterations(maxIterations);
    for i := 0 to n
      invariant forall p, q :: 0 <= p < height && 0 <= q < width ==> cs[p, q] == c
      invariant forall p, q :: 0 <= p < height && 0 <= q < width ==>
        StateAt(z, m, divTime, p, q) == JuliaRun(grid[p][q], c, i, smooth)
    {
      JuliaPassInPlace(z, cs, m, divTime, i, smooth);
    }
    return Ok(divTime);
  }
}
