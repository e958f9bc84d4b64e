# Escape-time fractals and name normalisation of bradweb

This project models two pieces of the bradweb repository in Dafny and proves
properties of them.

1. **`mandelbrot` and `julia_set` in `fractal_maker.py`.** Each one derives
   a viewport from the centre `(x, y)`, the `zoom` and the image shape. It
   samples a `height x width` grid of complex points with `np.linspace`. It
   then runs `max_iterations` passes of the recurrence `z := z**2 + c` over
   three same-shaped arrays, all updated in place through the boolean mask `m`:
   - the orbit values `z`;
   - the mask `m`;
   - the integer record `div_time`.

   Mandelbrot starts every orbit at 0 and uses the grid point as the
   constant. Julia starts every orbit at the grid point and uses one
   constant `c` for all points.
2. **The name shown by the `user` route in `bradweb.py`.** The route applies
   `string.capwords` and then keeps the first 39 characters when the result is
   longer than 40.

Modules:

- `EscapeTime` (`escape_time.dfy`) describes one grid point on values.
  - One pass of each loop is a function on a `PointState` (the point's `z`,
    `m` and `div_time`).
  - A run is the fold of those passes.
  - A reference outcome is computed from the first pass in which the orbit
    leaves the disc of radius 2.
  - Lemmas connect each run to its reference outcome. They prove that
    inactive points are frozen, that the mask never switches back on, that
    Mandelbrot writes `div_time` at most once while Julia overwrites it, and
    bounds on `div_time`.
- `FractalMaker` (`fractal_maker.dfy`) covers the rest of the two generators.
  - The viewport, `np.linspace` and the sample grid are functions, with the
    Python exceptions as a `Result`.
  - The generators are methods over `array2`. Each pass is a sequence of
    `forall` statements, one per masked numpy assignment.
  - Each loop is proved to leave every cell holding exactly the `EscapeTime`
    run of its grid point.
- `NameNormalisation` (`bradweb.dfy`) models `capwords` as split, capitalise
  and join, followed by the length cap.

The smoothing term `i - np.log2(max(1, np.log2(i if i > 0 else 1)))`,
truncated to `int` when it is stored in `div_time`, is a parameter
`smooth: nat -> int` of the model.
- The lemmas that need its values require `SmoothLaw(smooth)`: smooth(0) = 0,
  smooth(1) = 1, smooth(2) = 2, smooth(4) = 3, and 0 <= smooth(i) <= i.
- `ExactSmooth` is its value over exact reals: i for i <= 2, and
  i - ceil(log2(log2(i))) otherwise. It is proved to satisfy `SmoothLaw`.

What the code does at the edges, as the model states it:

- A Mandelbrot point that never escapes keeps `div_time` 0, because
  `div_time` starts as zeros and is written only on escape. It does not
  record the maximum iteration count. 0 is also what a point that escapes in
  pass 0 records.
- A Julia point that never escapes ends with `smooth(max_iterations - 1)`.
- There is no up-front validation of the arguments:
  - `width == 0` or `zoom == 0` raises a division by zero (`ZeroDivision`).
  - A negative `height` or `width` makes `np.linspace` raise
    (`NegativeSampleCount`).
  - `height == 0` is accepted and yields an empty grid.
  - A negative `zoom` flips the viewport.
  - `max_iterations <= 0` runs no pass, so every cell is 0.

## Model

| member | source | states |
|---|---|---|
| EscapeTime.Step | fractal_maker.py:48 | one step `z**2 + c` over exact reals; it has no contract of its own: StepFromZero states that from 0 it lands on c, and the Orbit/FirstEscape lemmas build on it |
| EscapeTime.MandelbrotRun | fractal_maker.py:47-51 | the Mandelbrot loop at one point: a point still active has div_time 0; MandelbrotRunIsOutcome gives its full closed form |
| EscapeTime.JuliaRun | fractal_maker.py:93-96 | the Julia loop at one point: a point still active after n passes holds smooth(n-1), or 0 if n = 0; JuliaRunIsOutcome gives its full closed form |
| EscapeTime.FirstEscape | fractal_maker.py:47-51 | the first pass whose orbit value lies outside the disc: it escapes and no earlier pass does; `None` exactly when no pass within the budget escapes |
| EscapeTime.ExactSmoothObeysLaw | fractal_maker.py:50 | the smoothing term over exact reals is 0, 1, 2, 3 at 0, 1, 2, 4 and lies in [0, i] for every i |
| EscapeTime.MandelbrotPass | fractal_maker.py:48-51 | one Mandelbrot pass leaves an inactive point unchanged and never turns the mask back on; it changes div_time only for an active point whose mask it clears, and then writes smooth(i) |
| EscapeTime.JuliaPass | fractal_maker.py:94-96 | one Julia pass leaves an inactive point unchanged and never turns the mask back on; a point still active gets smooth(i), and a point that goes inactive keeps its div_time |
| EscapeTime.MandelbrotRunIsOutcome | fractal_maker.py:43-51 | after n passes a point that first escapes in pass k is frozen at the orbit after k+1 steps with div_time smooth(k); a point that never escapes is active at the orbit after n steps with div_time 0 |
| EscapeTime.JuliaRunIsOutcome | fractal_maker.py:88-96 | after n passes a point that first escapes in pass k holds smooth(k-1), or 0 if k = 0; a point that never escapes is active and holds smooth(n-1), or 0 if n = 0 |
| EscapeTime.MandelbrotInactiveFrozen | fractal_maker.py:45-51 | once a point is inactive after k passes, its orbit value, mask and div_time are the same after any later number of passes |
| EscapeTime.JuliaInactiveFrozen | fractal_maker.py:92-96 | the same freezing of inactive points for the Julia loop |
| EscapeTime.MandelbrotMaskMonotone | fractal_maker.py:45-51 | a mask entry that is on after n passes was on after every k <= n passes |
| EscapeTime.JuliaMaskMonotone | fractal_maker.py:92-95 | the same mask monotonicity for the Julia loop |
| EscapeTime.MandelbrotWritesOnce | fractal_maker.py:49-50 | if pass i changes a point's div_time, pass i is that point's first escape, for every budget that contains pass i, so div_time is written at most once |
| EscapeTime.FirstEscapeStable | fractal_maker.py:47-51 | a first escape found within k passes is the first escape within any larger budget |
| EscapeTime.OrbitStaysZero | fractal_maker.py:48 | the orbit from 0 with constant 0 is 0 after any number of steps |
| EscapeTime.NeverEscapesFromOrigin | fractal_maker.py:48-51 | the orbit from 0 with constant 0 never leaves the disc |
| EscapeTime.MandelbrotOriginStaysZero | fractal_maker.py:43-51 | the Mandelbrot point c = 0 stays at its start state after any number of passes: orbit 0, mask on, div_time 0 |
| EscapeTime.MandelbrotFarPointEscapesAtOnce | fractal_maker.py:48-50 | a Mandelbrot point with abs(c) > 2 escapes in pass 0 and ends frozen at z = c with div_time smooth(0) = 0 |
| EscapeTime.MandelbrotDivTimeBounds | fractal_maker.py:44-50 | every Mandelbrot div_time lies in [0, n-1] after n >= 1 passes and is 0 after none |
| EscapeTime.JuliaDivTimeBounds | fractal_maker.py:91-96 | every Julia div_time lies in [0, n-1] after n >= 1 passes and is 0 after none |
| FractalMaker.MakeViewport | fractal_maker.py:32-37 | fails with a division by zero exactly when width or zoom is 0; otherwise both ranges are centred on (x, y), the x range spans 3/zoom, and the height/width ratio of the ranges is height/width |
| FractalMaker.Linspace | fractal_maker.py:39-40 | num samples; the first is start, the last is stop when num >= 2, and consecutive samples differ by (stop - start)/(num - 1) |
| FractalMaker.SampleGrid | fractal_maker.py:39-41 | a height x width grid whose point (p, q) has real part xs[q] and imaginary part ys[p] of the two linspaces |
| FractalMaker.Grid | fractal_maker.py:32-41 | fails exactly when width or zoom is 0 (division by zero) or a dimension is negative; division by zero takes precedence, and otherwise the failure is the linspace error for a negative sample count; on success the grid is height x width |
| FractalMaker.GridSpansViewport | fractal_maker.py:39-41 | the grid's corners are (x_from, y_from) and (x_to, y_to), its rows share real parts, its columns share imaginary parts, and the spacing is even both ways |
| FractalMaker.Iterations | fractal_maker.py:47 | the number of passes `range(max_iterations)` runs, 0 for a negative count; no contract of its own, it only feeds the loop bounds of Mandelbrot and JuliaSet |
| FractalMaker.Full | fractal_maker.py:43-45 | a fresh height x width array with every cell set to the given value |
| FractalMaker.ToArray | fractal_maker.py:41 | a fresh height x width array holding the grid point by point |
| FractalMaker.MandelbrotPassInPlace | fractal_maker.py:48-51 | the masked in-place updates of z, div_time and m leave every cell in the state MandelbrotPass gives it from its old state |
| FractalMaker.JuliaPassInPlace | fractal_maker.py:94-96 | the masked in-place updates of z, m and div_time leave every cell in the state JuliaPass gives it from its old state |
| FractalMaker.Mandelbrot | fractal_maker.py:10-52 | fails exactly as Grid fails; otherwise returns a fresh height x width array whose cell (p, q) is the div_time of MandelbrotRun from z = 0 with c the grid point |
| FractalMaker.JuliaSet | fractal_maker.py:55-97 | fails exactly as Grid fails; otherwise returns a fresh height x width array whose cell (p, q) is the div_time of JuliaRun from the grid point with the one constant c |
| NameNormalisation.ToUpper | bradweb.py:34 | the result is not a lower-case ASCII letter, is whitespace exactly when the input is, and has the same lower-case form |
| NameNormalisation.Capitalize | bradweb.py:34 | the word keeps its length, its whitespace positions and its letters up to case, and is capitalised: no lower-case first letter, no upper-case letter after it |
| NameNormalisation.CapitalizeIdempotent | bradweb.py:34 | capitalising a capitalised word changes nothing |
| NameNormalisation.WordEnd | bradweb.py:34 | the leading run it measures contains no whitespace and ends at whitespace or at the end of the string |
| NameNormalisation.Split | bradweb.py:34 | every piece of the split is non-empty and free of whitespace |
| NameNormalisation.SplitLetters | bradweb.py:34 | the words of s, written one after another, are exactly the non-whitespace characters of s in order |
| NameNormalisation.JoinSplit | bradweb.py:34 | a well-spaced string is its own words joined by single spaces |
| NameNormalisation.Join | bradweb.py:34 | `' '.join`; no contract of its own: SplitJoin, JoinSplit, JoinLetters and JoinWellSpaced state its properties |
| NameNormalisation.JoinLetters | bradweb.py:34 | joining words keeps all their characters, in order, and adds only whitespace |
| NameNormalisation.CapitalizeAll | bradweb.py:34 | `map(str.capitalize, words)`: same number of words, each one capitalised |
| NameNormalisation.CapWords | bradweb.py:34 | `string.capwords`; no contract of its own: CapWordsWords, CapWordsWellSpaced and CapWordsIdempotent state its properties |
| NameNormalisation.SplitLeadingWord | bradweb.py:34 | a word followed by whitespace or by nothing is split off whole |
| NameNormalisation.SplitJoin | bradweb.py:34 | splitting non-empty, whitespace-free words joined by single spaces gives back the same words |
| NameNormalisation.JoinWellSpaced | bradweb.py:34 | such words joined by single spaces have no leading, trailing or repeated whitespace, and the only whitespace is the space |
| NameNormalisation.CapWordsWords | bradweb.py:34 | the words of capwords(s) are the words of s, capitalised, in the same order and with the same letters up to case |
| NameNormalisation.CapWordsWellSpaced | bradweb.py:34 | capwords(s) has no leading, trailing or repeated whitespace, and its only whitespace is the space |
| NameNormalisation.CapWordsIdempotent | bradweb.py:34 | capwords applied twice is capwords applied once |
| NameNormalisation.NormalizeName | bradweb.py:34-36 | the name is at most 40 characters long and a prefix of capwords(name); it has all of capwords(name) when that is at most 40 characters, and 39 characters otherwise, so a 40-character name is never truncated |
| NameNormalisation.NormalizeNameShrinks | bradweb.py:35-36 | a single 41-character word is shown as the first 39 characters of its capitalised form |
| NameNormalisation.NormalizeNameCapped | bradweb.py:35-36 | corrected cap: the longest prefix of capwords(name) with at most 40 characters |

## Left out

- `plotter` (fractal_maker.py:100-128) is not modelled: matplotlib rendering, PNG encoding and base64 are library calls.
- The Flask routes `home`, `bradzone` and `login` are not modelled. Neither are template rendering, redirects, `app.run` or the `float()`/`int()` parsing of form fields: these are web I/O.
- IEEE-754 arithmetic is not modelled: complex numbers are pairs of exact reals. This leaves out rounding in `np.linspace`, in squaring and in `np.abs`, and overflow to infinity or NaN.
- `np.abs(z) > 2` is modelled as re*re + im*im > 4, which is the same test over exact reals.
- `np.log2` is not modelled: the smoothing term is the parameter `smooth`, constrained by `SmoothLaw`. Its truncation to `int` in the assignment is part of that parameter.
- Numpy's 64-bit `int` for `div_time` is modelled as `int`. Every stored value lies in [0, max_iterations - 1], so no wrap-around arises under `SmoothLaw`.
- NameNormalisation.Capitalize: case mapping covers ASCII letters only. Python's Unicode upper/title/lower mappings for other letters, including ones that change length, are not modelled. Whitespace is Python's full `str.split()` set.

## Findings

| source | as written | input that shows it | evidently intended | confidence | as-written member | corrected member |
|---|---|---|---|---|---|---|
| bradweb.py:35-36 | a name longer than 40 characters is cut with `name[0:39]`, to 39 characters | any single 41-character word: it is shown with 39 characters, while a 40-character word is shown whole | cut to the 40 characters the guard allows (`name[0:40]`) | medium, not executed | NameNormalisation.NormalizeNameShrinks | NameNormalisation.NormalizeNameCapped |
