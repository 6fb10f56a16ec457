/**
  The latent-space search loop of `repair()` (repair.py:110-122): every
  iteration runs one optimizer step on the noise vector, and iterations whose
  index passes the logging test report the loss and export images. The Adam
  step and the exported images are not modelled; the trace records which
  happen, in order.
 */
module RepairLoop {
  import opened IntArith

  /** Python's float remainder, `x % y == x - floor(x / y) * y`; y == 0 raises ZeroDivisionError. */
  function FloatMod(x: real, y: real): real
    requires y != 0.0
  {
    x - (x / y).Floor as real * y
  }

  /** The remainder takes the sign of the divisor, is smaller than it in size, and differs from x by a whole multiple of y. */
  lemma FloatModRange(x: real, y: real)
    requires y != 0.0
    ensures var r := FloatMod(x, y);
            (y > 0.0 ==> 0.0 <= r < y) && (y < 0.0 ==> y < r <= 0.0) && ((x - r) / y).Floor as real == (x - r) / y
  {
    FloorBounds(x, y);
  }

  /** floor(x / y) * y is the multiple of y just at or below x (y > 0), or just at or above it (y < 0). */
  lemma FloorBounds(x: real, y: real)
    requires y != 0.0
    ensures var f := (x / y).Floor as real;
            (y > 0.0 ==> f * y <= x < f * y + y) && (y < 0.0 ==> f * y + y < x <= f * y) &&
            (f * y) / y == f && f.Floor as real == f
  {
    var q := x / y;
    var f := q.Floor as real;
    assert q * y == x;
    assert (q - f) * y == x - f * y;
    ScaledFraction(q - f, y, x, f * y);
  }

  /** x lies d of the way from fy to fy + y, for a fraction 0 <= d < 1. */
  lemma ScaledFraction(d: real, y: real, x: real, fy: real)
    requires 0.0 <= d < 1.0 && d * y == x - fy
    ensures y > 0.0 ==> fy <= x < fy + y
    ensures y < 0.0 ==> fy + y < x <= fy
  {
    ProductSigns(d, y);
    ProductSigns(1.0 - d, y);
    assert (1.0 - d) * y == y - d * y;
  }

  lemma ProductSigns(a: real, b: real)
    ensures a >= 0.0 && b > 0.0 ==> a * b >= 0.0
    ensures a > 0.0 && b > 0.0 ==> a * b > 0.0
    ensures a >= 0.0 && b < 0.0 ==> a * b <= 0.0
    ensures a > 0.0 && b < 0.0 ==> a * b < 0.0
  {
  }

  /** The logging test `epoch % break_time == 0`, with break_time read as a float (repair.py:17, 112). */
  predicate Reports(epoch: int, breakTime: real)
    requires breakTime != 0.0
  {
    FloatMod(epoch as real, breakTime) == 0.0
  }

  /** An iteration reports exactly when epoch / break_time is a whole number. */
  lemma ReportsIffWhole(epoch: int, breakTime: real)
    requires breakTime != 0.0
    ensures Reports(epoch, breakTime) <==> (epoch as real / breakTime).Floor as real == epoch as real / breakTime
  {
    FloorBounds(epoch as real, breakTime);
  }

  /** `Optimize(e)`: the Adam step of iteration e; `Report(e)`: the loss print and image export after it. */
  datatype RepairEvent = Optimize(epoch: int) | Report(epoch: int)

  datatype Outcome = Completed | ZeroBreakTime

  datatype Run = Run(trace: seq<RepairEvent>, outcome: Outcome)

  /** The events of iterations e, e + 1, ..., epochs - 1. */
  function RepairFrom(e: int, epochs: int, breakTime: real): Run
    decreases epochs - e
  {
    if e >= epochs then Run([], Completed)
    else if breakTime == 0.0 then Run([Optimize(e)], ZeroBreakTime)
    else
      var rest := RepairFrom(e + 1, epochs, breakTime);
      Run([Optimize(e)] + (if Reports(e, breakTime) then [Report(e)] else []) + rest.trace, rest.outcome)
  }

  /** The loop `for epoch in range(epochs)` of repair.py:110-122. */
  method Repair(epochs: int, breakTime: real) returns (trace: seq<RepairEvent>, outcome: Outcome)
    ensures Run(trace, outcome) == RepairFrom(0, epochs, breakTime)
  {
    trace := [];
    var epoch := 0;
    ghost var whole := RepairFrom(0, epochs, breakTime);
    while epoch < epochs
      invariant 0 <= epoch
      invariant whole.trace == trace + RepairFrom(epoch, epochs, breakTime).trace
      invariant whole.outcome == RepairFrom(epoch, epochs, breakTime).outcome
      decreases epochs - epoch
    {
      ghost var before := trace;
      trace := trace + [Optimize(epoch)];
      if breakTime == 0.0 {
        return trace, ZeroBreakTime;
      }
      var due := Reports(epoch, breakTime);
      if due {
        trace := trace + [Report(epoch)];
      }
      RepairAdvance(whole, before, trace, epoch, epochs, breakTime, due);
      epoch := epoch + 1;
    }
    outcome := Completed;
  }

  /**
    One iteration of the loop keeps its invariant: the events so far, followed
    by the events of the remaining iterations, are the events of the whole run.
   */
  lemma RepairAdvance(whole: Run, before: seq<RepairEvent>, after: seq<RepairEvent>,
                      e: int, epochs: int, breakTime: real, due: bool)
    requires e < epochs && breakTime != 0.0 && due == Reports(e, breakTime)
    requires whole.trace == before + RepairFrom(e, epochs, breakTime).trace
    requires whole.outcome == RepairFrom(e, epochs, breakTime).outcome
    requires after == before + [Optimize(e)] + (if due then [Report(e)] else [])
    ensures whole.trace == after + RepairFrom(e + 1, epochs, breakTime).trace
    ensures whole.outcome == RepairFrom(e + 1, epochs, breakTime).outcome
  {
    var step := [Optimize(e)] + (if due then [Report(e)] else []);
    var rest := RepairFrom(e + 1, epochs, breakTime);
    assert RepairFrom(e, epochs, breakTime) == Run(step + rest.trace, rest.outcome);
    assert before + (step + rest.trace) == (before + step) + rest.trace;
  }

  /** A run has events exactly when it has an iteration, and it starts with that iteration's step. */
  lemma RepairStart(e: int, epochs: int, breakTime: real)
    ensures RepairFrom(e, epochs, breakTime).trace == [] <==> e >= epochs
    ensures e < epochs ==> RepairFrom(e, epochs, breakTime).trace[0] == Optimize(e)
  {
  }

  /** With a non-zero interval every iteration contributes its step and at most one report. */
  lemma {:induction false} RepairTraceLength(e: int, epochs: int, breakTime: real)
    requires breakTime != 0.0 && e <= epochs
    ensures epochs - e <= |RepairFrom(e, epochs, breakTime).trace| <= 2 * (epochs - e)
    decreases epochs - e
  {
    if e < epochs {
      RepairTraceLength(e + 1, epochs, breakTime);
    }
  }

  /** With an integral interval b > 0 the float test is ordinary divisibility, as in training. */
  lemma ReportsIffDivides(e: int, b: int)
    requires b > 0
    ensures Reports(e, b as real) <==> e % b == 0
  {
    var x := e as real / b as real;
    if e % b == 0 {
      assert e == (e / b) * b;
      assert x == (e / b) as real;
      assert x.Floor == e / b;
    } else {
      var q := x.Floor;
      if FloatMod(e as real, b as real) == 0.0 {
        assert e as real == q as real * b as real;
        assert e == q * b;
        DivModUnique(b, q, 0, e);
      }
    }
  }

  /** Iteration 0 always reports when the interval is non-zero. */
  lemma FirstIterationReports(breakTime: real)
    requires breakTime != 0.0
    ensures Reports(0, breakTime)
  {
  }

  /** A zero interval fails right after the first step, unless there are no iterations. */
  lemma {:induction false} RepairOutcome(e: int, epochs: int, breakTime: real)
    ensures RepairFrom(e, epochs, breakTime).outcome == ZeroBreakTime <==> e < epochs && breakTime == 0.0
    ensures e < epochs && breakTime == 0.0 ==> RepairFrom(e, epochs, breakTime).trace == [Optimize(e)]
    decreases epochs - e
  {
    if e < epochs && breakTime != 0.0 {
      RepairOutcome(e + 1, epochs, breakTime);
    }
  }

  /**
    A completed run steps every iteration from e to epochs - 1 and reports
    exactly the iterations that pass the logging test.
   */
  lemma {:induction false} RepairEvents(e: int, epochs: int, breakTime: real, x: int)
    requires breakTime != 0.0
    ensures Optimize(x) in RepairFrom(e, epochs, breakTime).trace <==> e <= x < epochs
    ensures Report(x) in RepairFrom(e, epochs, breakTime).trace <==> e <= x < epochs && Reports(x, breakTime)
    decreases epochs - e
  {
    if e < epochs {
      RepairEvents(e + 1, epochs, breakTime, x);
    }
  }

  /** Every report comes right after the optimizer step of the same iteration. */
  lemma {:induction false} ReportFollowsStep(e: int, epochs: int, breakTime: real, i: int)
    requires 0 <= i < |RepairFrom(e, epochs, breakTime).trace|
    requires RepairFrom(e, epochs, breakTime).trace[i].Report?
    ensures i > 0
    ensures RepairFrom(e, epochs, breakTime).trace[i - 1] == Optimize(RepairFrom(e, epochs, breakTime).trace[i].epoch)
    decreases epochs - e
  {
    var t := RepairFrom(e, epochs, breakTime).trace;
    var head := [Optimize(e)] + (if Reports(e, breakTime) then [Report(e)] else []);
    var rest := RepairFrom(e + 1, epochs, breakTime).trace;
    assert t == head + rest;
    if i >= |head| {
      assert t[i] == rest[i - |head|];
      ReportFollowsStep(e + 1, epochs, breakTime, i - |head|);
      if i - |head| - 1 >= 0 {
        assert t[i - 1] == rest[i - |head| - 1];
      }
    }
  }
}
