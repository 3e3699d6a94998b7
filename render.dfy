/**
 * The sequential part of the driver in `main` (src/main.rs): the mapping
 * from an iteration count to a wavelength, the per-row job that each
 * worker runs, and the loop over rows that hands those jobs out.
 */
module Render {
  import opened Prims
  import opened Spectrum
  import opened Fractal

  /** The image size and iteration budget fixed in the source. */
  const Width: U32 := 300
  const Height: U32 := 300
  const Iterations: U32 := 300

  /** The Julia constant `c` fixed in the source. */
  const C: Complex := Complex(-0.8, 0.156)

  /**
   * `380 + i * 400 / iterations` in `u32` arithmetic with Rust's checks:
   * `None` when the product or the sum overflows or the budget is zero.
   */
  function WavelengthFor(i: U32, iterations: U32): (w: Option<U32>)
    ensures iterations == 0 ==> w.None?
    ensures i * 400 >= U32Limit ==> w.None?
    ensures w.None? <==> iterations == 0 || i * 400 >= U32Limit || 380 + i * 400 / iterations >= U32Limit
    ensures w.Some? ==> 380 <= w.value && (w.value - 380) * iterations <= i * 400 < (w.value - 379) * iterations
  {
    var p := i * 400;
    if p >= U32Limit || iterations == 0 then None
    else
      var q := p / iterations;
      FloorDivBounds(p, iterations, q);
      if 380 + q >= U32Limit then None else Some(380 + q)
  }

  /** Integer division rounds down: `p / n` is the `q` with `q * n <= p < (q + 1) * n`. */
  lemma FloorDivBounds(p: nat, n: nat, q: nat)
    requires 0 < n && q == p / n
    ensures q * n <= p < (q + 1) * n
  {
  }

  /** The largest budget for which `i * 400` fits in a `u32` for every `i < iterations`. */
  const MaxSafeIterations: nat := 10737419  // (U32Limit - 1) / 400 + 1

  /** The budgets for which the wavelength mapping panics for no count below the budget. */
  predicate PanicFree(iterations: U32) {
    0 < iterations <= MaxSafeIterations
  }

  /** Integer division by `n` of a value below `b * n` is below `b`. */
  lemma DivBelow(a: nat, b: nat, n: nat)
    requires 0 < n && a < b * n
    ensures a / n < b
  {
  }

  /**
   * For every count below the budget the wavelength exists and lies in
   * [380, 780): the driver never reaches the black arm of the colour map.
   */
  lemma WavelengthWithinVisible(i: U32, iterations: U32)
    requires PanicFree(iterations) && i < iterations
    ensures WavelengthFor(i, iterations).Some?
    ensures 380 <= WavelengthFor(i, iterations).value < 780
    ensures Visible(WavelengthFor(i, iterations).value)
  {
    var p := i * 400;
    assert p <= (iterations - 1) * 400 <= (MaxSafeIterations - 1) * 400 < U32Limit;
    DivBelow(p, 400, iterations);
  }

  /** Every other nonzero budget has a count below it whose product `i * 400` overflows. */
  lemma BeyondSafeBudgetPanics(iterations: U32)
    requires iterations > MaxSafeIterations
    ensures WavelengthFor(MaxSafeIterations, iterations).None?
  {
  }

  /** With the source's budget of 300, `i * 400` never overflows. */
  lemma SourceBudgetIsPanicFree()
    ensures PanicFree(Iterations)
    ensures forall i: U32 :: i < Iterations ==> i * 400 < U32Limit
  {
  }

  /** One pixel result, as sent from a worker to the presenter. */
  datatype PixelDrawEvent = PixelDrawEvent(x: U32, y: U32, color: Color)

  /** The colour of pixel `(x, y)`, or `None` when its job panics there. */
  function PixelColor(c: Complex, x: U32, y: U32, width: U32, height: U32, iterations: U32, gamma: real -> real): (color: Option<Color>)
    requires x < width && y < height
    ensures iterations == 0 ==> color.None?
    ensures PanicFree(iterations) ==> color.Some?
  {
    var i := JuliaValue(c, x, y, width, height, iterations);
    assert PanicFree(iterations) ==> WavelengthFor(i, iterations).Some? by {
      if PanicFree(iterations) {
        WavelengthWithinVisible(i, iterations);
      }
    }
    match WavelengthFor(i, iterations)
    case None => None
    case Some(w) => Some(WavelengthToRgb(w, gamma))
  }

  /** Under a panic-free budget every pixel has a colour, taken from the visible range. */
  lemma PixelColorDefined(c: Complex, x: U32, y: U32, width: U32, height: U32, iterations: U32, gamma: real -> real)
    requires x < width && y < height && PanicFree(iterations)
    ensures PixelColor(c, x, y, width, height, iterations, gamma).Some?
    ensures PixelColor(c, x, y, width, height, iterations, gamma).value
         == WavelengthToRgb(380 + JuliaValue(c, x, y, width, height, iterations) * 400 / iterations, gamma)
  {
    WavelengthWithinVisible(JuliaValue(c, x, y, width, height, iterations), iterations);
  }

  /**
   * The events the job for row `y` sends from column `x` on, in column
   * order; a panic ends the job, and with it the rest of the row.
   */
  function RowEventsFrom(c: Complex, x: nat, y: U32, width: U32, height: U32, iterations: U32, gamma: real -> real): (es: seq<PixelDrawEvent>)
    requires x <= width && y < height
    ensures |es| <= width - x
    ensures PanicFree(iterations) ==> |es| == width - x
    ensures forall k :: 0 <= k < |es| ==> es[k].x == x + k && es[k].y == y
    ensures forall k :: 0 <= k < |es| ==> PixelColor(c, es[k].x, y, width, height, iterations, gamma) == Some(es[k].color)
    decreases width - x
  {
    if x == width then []
    else match PixelColor(c, x, y, width, height, iterations, gamma)
      case None => []
      case Some(color) => [PixelDrawEvent(x, y, color)] + RowEventsFrom(c, x + 1, y, width, height, iterations, gamma)
  }

  /** One step of a row job: the pixel at column `x` either panics or leads the rest of the row. */
  lemma RowEventsStep(c: Complex, x: nat, y: U32, width: U32, height: U32, iterations: U32, gamma: real -> real, wavelength: Option<U32>)
    requires x < width && y < height
    requires wavelength == WavelengthFor(JuliaValue(c, x, y, width, height, iterations), iterations)
    ensures wavelength.None? ==> RowEventsFrom(c, x, y, width, height, iterations, gamma) == []
    ensures wavelength.Some? ==>
      RowEventsFrom(c, x, y, width, height, iterations, gamma) == [PixelDrawEvent(x, y, WavelengthToRgb(wavelength.value, gamma))] + RowEventsFrom(c, x + 1, y, width, height, iterations, gamma)
  {
  }

  /** The events of rows `0 .. h`, row after row. */
  function EventsUpTo(c: Complex, h: nat, width: U32, height: U32, iterations: U32, gamma: real -> real): (es: seq<PixelDrawEvent>)
    requires h <= height
    ensures forall k :: 0 <= k < |es| ==> es[k].x < width && es[k].y < h
    ensures forall k :: 0 <= k < |es| ==> PixelColor(c, es[k].x, es[k].y, width, height, iterations, gamma) == Some(es[k].color)
  {
    if h == 0 then []
    else EventsUpTo(c, h - 1, width, height, iterations, gamma) + RowEventsFrom(c, 0, h - 1, width, height, iterations, gamma)
  }

  /**
   * The closure each worker runs for row `y`: for every column, evaluate
   * `julia`, map the count to a wavelength and a colour, and send the event.
   */
  method RowJob(c: Complex, y: U32, width: U32, height: U32, iterations: U32, gamma: real -> real) returns (sent: seq<PixelDrawEvent>)
    requires y < height
    ensures sent == RowEventsFrom(c, 0, y, width, height, iterations, gamma)
  {
    sent := [];
    for x := 0 to width
      invariant sent + RowEventsFrom(c, x, y, width, height, iterations, gamma) == RowEventsFrom(c, 0, y, width, height, iterations, gamma)
    {
      var i := Julia(c, x, y, width, height, iterations);
      var wavelength := WavelengthFor(i, iterations);
      RowEventsStep(c, x, y, width, height, iterations, gamma, wavelength);
      if wavelength.None? {
        // the job panics here: the rest of its row is never sent
        return;
      }
      var event := PixelDrawEvent(x, y, WavelengthToRgb(wavelength.value, gamma));
      sent := sent + [event];
    }
  }

  /**
   * The dispatch loop, run sequentially: one job per row, in row order,
   * with every event of a job delivered.
   */
  method Dispatch(c: Complex, width: U32, height: U32, iterations: U32, gamma: real -> real) returns (sent: seq<PixelDrawEvent>)
    ensures sent == EventsUpTo(c, height, width, height, iterations, gamma)
  {
    sent := [];
    for y := 0 to height
      invariant sent == EventsUpTo(c, y, width, height, iterations, gamma)
    {
      var row := RowJob(c, y, width, height, iterations, gamma);
      sent := sent + row;
    }
  }

  /** The coordinates of a row from column `x` on, in ascending column order. */
  function RowFrom(x: nat, y: nat, width: nat): (r: seq<(nat, nat)>)
    ensures |r| == if x <= width then width - x else 0
    ensures forall k :: 0 <= k < |r| ==> r[k] == (x + k, y)
    decreases width - x
  {
    if x >= width then [] else [(x, y)] + RowFrom(x + 1, y, width)
  }

  /** The coordinates of rows `0 .. height`, row after row. */
  function Grid(width: nat, height: nat): (g: seq<(nat, nat)>)
    ensures |g| == width * height
  {
    if height == 0 then [] else Grid(width, height - 1) + RowFrom(0, height - 1, width)
  }

  /** The grid holds exactly the pixels of the image. */
  lemma {:induction false} GridMembership(width: nat, height: nat, p: (nat, nat))
    ensures p in Grid(width, height) <==> p.0 < width && p.1 < height
  {
    if height > 0 {
      GridMembership(width, height - 1, p);
      var row := RowFrom(0, height - 1, width);
      if p.1 == height - 1 && p.0 < width {
        assert row[p.0] == p;
      }
    }
  }

  /** The grid holds no pixel twice. */
  lemma {:induction false} GridDistinct(width: nat, height: nat)
    ensures forall i, j :: 0 <= i < j < |Grid(width, height)| ==> Grid(width, height)[i] != Grid(width, height)[j]
  {
    if height > 0 {
      GridDistinct(width, height - 1);
      var prefix, row := Grid(width, height - 1), RowFrom(0, height - 1, width);
      forall i | 0 <= i < |prefix|
        ensures prefix[i].1 < height - 1
      {
        GridMembership(width, height - 1, prefix[i]);
      }
    }
  }

  /** Pixel `(x, y)` sits at position `y * width + x`. */
  lemma {:induction false} GridAt(width: nat, height: nat, x: nat, y: nat)
    requires x < width && y < height
    ensures y * width + x < |Grid(width, height)|
    ensures Grid(width, height)[y * width + x] == (x, y)
  {
    if y < height - 1 {
      GridAt(width, height - 1, x, y);
    }
    assert (height - 1) * width == height * width - width;
  }

  /** The coordinates of a sequence of events. */
  function Coords(es: seq<PixelDrawEvent>): seq<(nat, nat)> {
    seq(|es|, k requires 0 <= k < |es| => (es[k].x as nat, es[k].y as nat))
  }

  lemma CoordsAppend(a: seq<PixelDrawEvent>, b: seq<PixelDrawEvent>)
    ensures Coords(a + b) == Coords(a) + Coords(b)
  {
  }

  /** Under a panic-free budget the job for a row sends every column of it, in ascending order. */
  lemma RowComplete(c: Complex, x: nat, y: U32, width: U32, height: U32, iterations: U32, gamma: real -> real)
    requires x <= width && y < height && PanicFree(iterations)
    ensures Coords(RowEventsFrom(c, x, y, width, height, iterations, gamma)) == RowFrom(x, y, width)
  {
    CoordsOfRow(RowEventsFrom(c, x, y, width, height, iterations, gamma), x, y, width);
  }

  /** Events at columns `x, x+1, ...` up to the width, all in row `y`, have the coordinates of that row. */
  lemma CoordsOfRow(es: seq<PixelDrawEvent>, x: nat, y: U32, width: U32)
    requires x <= width && |es| == width - x
    requires forall k :: 0 <= k < |es| ==> es[k].x == x + k && es[k].y == y
    ensures Coords(es) == RowFrom(x, y, width)
  {
    var row := RowFrom(x, y, width);
    assert |Coords(es)| == |row|;
    forall k | 0 <= k < |row|
      ensures Coords(es)[k] == row[k]
    {
    }
  }

  /** Under a panic-free budget the dispatch sends the coordinates of the grid, in grid order. */
  lemma {:induction false} DispatchCoversGrid(c: Complex, h: nat, width: U32, height: U32, iterations: U32, gamma: real -> real)
    requires h <= height && PanicFree(iterations)
    ensures Coords(EventsUpTo(c, h, width, height, iterations, gamma)) == Grid(width, h)
  {
    if h > 0 {
      var prefix := EventsUpTo(c, h - 1, width, height, iterations, gamma);
      var row := RowEventsFrom(c, 0, h - 1, width, height, iterations, gamma);
      DispatchCoversGrid(c, h - 1, width, height, iterations, gamma);
      RowComplete(c, 0, h - 1, width, height, iterations, gamma);
      calc {
        Coords(EventsUpTo(c, h, width, height, iterations, gamma));
        Coords(prefix + row);
        { CoordsAppend(prefix, row); }
        Coords(prefix) + Coords(row);
        Grid(width, h - 1) + RowFrom(0, h - 1, width);
        Grid(width, h);
      }
    }
  }

  /**
   * A run with a panic-free budget and no event lost in delivery: one event
   * for each pixel of the image, none twice, each coloured by the
   * wavelength of its escape count.
   */
  lemma DispatchDrawsEveryPixelOnce(c: Complex, width: U32, height: U32, iterations: U32, gamma: real -> real)
    requires PanicFree(iterations)
    ensures |EventsUpTo(c, height, width, height, iterations, gamma)| == width * height
    ensures forall x: nat, y: nat :: (x, y) in Coords(EventsUpTo(c, height, width, height, iterations, gamma)) <==> x < width && y < height
    ensures forall i, j :: 0 <= i < j < |EventsUpTo(c, height, width, height, iterations, gamma)| ==>
      Coords(EventsUpTo(c, height, width, height, iterations, gamma))[i] != Coords(EventsUpTo(c, height, width, height, iterations, gamma))[j]
    ensures forall e :: e in EventsUpTo(c, height, width, height, iterations, gamma) ==>
      e.color == WavelengthToRgb(380 + JuliaValue(c, e.x, e.y, width, height, iterations) * 400 / iterations, gamma)
  {
    DispatchCoversGrid(c, height, width, height, iterations, gamma);
    EventsColoured(c, height, width, height, iterations, gamma);
    GridDistinct(width, height);
    forall x: nat, y: nat
      ensures (x, y) in Grid(width, height) <==> x < width && y < height
    {
      GridMembership(width, height, (x, y));
    }
  }

  /** Under a panic-free budget every event is coloured by the wavelength of its escape count. */
  lemma EventsColoured(c: Complex, h: nat, width: U32, height: U32, iterations: U32, gamma: real -> real)
    requires h <= height && PanicFree(iterations)
    ensures forall e :: e in EventsUpTo(c, h, width, height, iterations, gamma) ==>
      e.color == WavelengthToRgb(380 + JuliaValue(c, e.x, e.y, width, height, iterations) * 400 / iterations, gamma)
  {
    var es := EventsUpTo(c, h, width, height, iterations, gamma);
    forall e | e in es
      ensures e.color == WavelengthToRgb(380 + JuliaValue(c, e.x, e.y, width, height, iterations) * 400 / iterations, gamma)
    {
      PixelColorDefined(c, e.x, e.y, width, height, iterations, gamma);
    }
  }

  /**
   * The run the source performs (300 x 300 pixels, budget 300, constant
   * `C`), with no event lost in delivery: exactly 90000 events, one for
   * each pixel.
   */
  lemma SourceRunDrawsEveryPixelOnce(gamma: real -> real)
    ensures |EventsUpTo(C, Height, Width, Height, Iterations, gamma)| == 90000
    ensures forall x: nat, y: nat :: (x, y) in Coords(EventsUpTo(C, Height, Width, Height, Iterations, gamma)) <==> x < 300 && y < 300
  {
    DispatchDrawsEveryPixelOnce(C, Width, Height, Iterations, gamma);
  }
}
