/** The size-constrained re-encoding of one image: the optional initial
    downscale to the maximum width, then the loop that saves the image,
    lowers the quality while the file is over budget and, when the quality
    is used up, shrinks the image by a tenth and starts again at quality 80.

    The source computes with Python floats; the model uses the exact
    integer formulas below, truncating toward zero where the source calls
    `int(...)`. */
module Reencoding {
  import opened Imaging

  /** Quality of the first save. */
  const StartQuality: int := 90
  /** Quality after each dimension fallback. */
  const FallbackQuality: int := 80

  /** `max(2, int((size - budget) / (budget * 0.05)))`: the overshoot in
      whole units of 5% of the budget, and at least 2. */
  function QualityDecrease(size: int, budget: int): (d: int)
    requires budget != 0
    ensures d >= 2
    ensures size > budget && budget < 0 ==> d == 2
  {
    Max(2, TruncDiv(20 * (size - budget), budget))
  }

  /** `int(d * 0.9)`: a dimension after a fallback. */
  function Shrink(d: int): (r: int)
    ensures d >= 0 ==> 0 <= r <= d && 10 * r <= 9 * d < 10 * r + 10
    ensures Abs(r) <= Abs(d) && (d != 0 ==> Abs(r) < Abs(d))
  {
    TruncDiv(9 * d, 10)
  }

  /** The setting for the next save after attempt `a` came out over budget,
      or the error the source raises on the way there.  The quality drops
      by QualityDecrease, clamped at 1; a quality of 1 is never saved:
      the image is shrunk instead and the quality reset to 80. */
  function NextSetting(c: Codec, budget: int, a: Attempt): (r: Result<Setting>)
    requires a.size > budget
    // a budget of 0 bytes makes the step a division by zero
    ensures budget == 0 ==> r == Err(DivisionByZero)
    // with a non-zero budget only the fallback resize can raise
    ensures r.Err? ==> r.error == (if budget == 0 then DivisionByZero else ResizeRejected)
    // at the same dimensions the quality strictly drops, by at least 2;
    // otherwise both dimensions were shrunk to a tenth less and quality is 80
    ensures r.Ok? ==>
      (r.value.width == a.setting.width && r.value.height == a.setting.height
        && 2 <= r.value.quality <= a.setting.quality - 2)
      || (r.value == Setting(Shrink(a.setting.width), Shrink(a.setting.height), FallbackQuality)
        && c.resizes(r.value.width, r.value.height))
    // the fallback happens exactly when the clamped quality reaches 1
    ensures budget != 0 && Max(1, a.setting.quality - QualityDecrease(a.size, budget)) > 1 ==>
      r == Ok(Setting(a.setting.width, a.setting.height, a.setting.quality - QualityDecrease(a.size, budget)))
    ensures budget != 0 && Max(1, a.setting.quality - QualityDecrease(a.size, budget)) <= 1 ==>
      (r.Ok? <==> c.resizes(Shrink(a.setting.width), Shrink(a.setting.height)))
      && (r.Ok? ==> r.value == Setting(Shrink(a.setting.width), Shrink(a.setting.height), FallbackQuality))
  {
    if budget == 0 then Err(DivisionByZero)
    else
      var quality := Max(1, a.setting.quality - QualityDecrease(a.size, budget));
      if quality <= 1 then
        var w, h := Shrink(a.setting.width), Shrink(a.setting.height);
        if c.resizes(w, h) then Ok(Setting(w, h, FallbackQuality)) else Err(ResizeRejected)
      else Ok(Setting(a.setting.width, a.setting.height, quality))
  }

  /** The convergence loop from setting `s`, allowed at most `fuel` saves.
      The source has no such bound (`while True`); `OutOfFuel` is the
      model's way of saying the loop has not ended yet. */
  function Run(c: Codec, budget: int, s: Setting, fuel: nat): Trace
    decreases fuel
  {
    if fuel == 0 then Trace([], OutOfFuel)
    else match c.encode(s.width, s.height, s.quality)
      case None => Trace([], Failed(SaveFailed))
      case Some(size) =>
        var a := Attempt(s, size);
        if size <= budget then Trace([a], Fitted)
        else match NextSetting(c, budget, a)
          case Err(e) => Trace([a], Failed(e))
          case Ok(next) =>
            var rest := Run(c, budget, next, fuel - 1);
            Trace([a] + rest.attempts, rest.ending)
  }

  /** One save per unit of fuel: the loop is cut short only once every
      unit was spent on a save, and the loop itself never reports a file
      that failed to open. */
  lemma {:induction false} RunSpendsFuel(c: Codec, budget: int, s: Setting, fuel: nat)
    ensures var t := Run(c, budget, s, fuel);
      |t.attempts| <= fuel
      && (t.ending == OutOfFuel ==> |t.attempts| == fuel)
      && t.ending != Failed(OpenFailed)
    decreases fuel
  {
    if fuel > 0 {
      match c.encode(s.width, s.height, s.quality)
      case None =>
      case Some(size) =>
        if size > budget {
          match NextSetting(c, budget, Attempt(s, size))
          case Err(_) =>
          case Ok(next) => RunSpendsFuel(c, budget, next, fuel - 1);
        }
    }
  }

  /** The setting the loop starts from: the opened image, first scaled to
      `maxWidth` wide (height `int(height * (maxWidth / width))`) when it is
      wider than that, at quality 90. */
  function InitialDownscale(c: Codec, width: nat, height: nat, maxWidth: int): (r: Result<Setting>)
    ensures r.Ok? ==> r.value.quality == StartQuality
    // an image no wider than the maximum enters the loop unchanged
    ensures width <= maxWidth ==> r == Ok(Setting(width, height, StartQuality))
    // a wider one is resized once to exactly maxWidth wide, with the
    // height scaled by the same ratio and rounded down
    ensures 0 <= maxWidth < width ==>
      (r.Ok? <==> c.resizes(maxWidth, height * maxWidth / width))
      && (r.Ok? ==> r.value.width == maxWidth && 0 <= r.value.height <= height
                    && r.value.height * width <= height * maxWidth < (r.value.height + 1) * width)
      && (r.Err? ==> r.error == ResizeRejected)
    // a negative maxWidth is passed on as it is; the scaled height is
    // then at most 0, its magnitude truncated toward zero
    ensures maxWidth < 0 < width ==>
      (r.Ok? <==> c.resizes(maxWidth, TruncDiv(height * maxWidth, width)))
      && (r.Ok? ==> r.value == Setting(maxWidth, TruncDiv(height * maxWidth, width), StartQuality)
                    && r.value.height <= 0
                    && -r.value.height * width <= height * -maxWidth < (-r.value.height + 1) * width)
      && (r.Err? ==> r.error == ResizeRejected)
    // `maxWidth / width` with a zero width
    ensures maxWidth < width == 0 ==> r == Err(DivisionByZero)
  {
    if width <= maxWidth then Ok(Setting(width, height, StartQuality))
    else if width == 0 then Err(DivisionByZero)
    else
      var newHeight := TruncDiv(height * maxWidth, width);
      ScaledHeightBounds(height, maxWidth, width);
      if c.resizes(maxWidth, newHeight) then Ok(Setting(maxWidth, newHeight, StartQuality))
      else Err(ResizeRejected)
  }

  /** Scaling a height by maxWidth / width < 1 and rounding down. */
  lemma ScaledHeightBounds(height: nat, maxWidth: int, width: nat)
    requires maxWidth < width && width > 0
    ensures 0 <= maxWidth ==> TruncDiv(height * maxWidth, width) == height * maxWidth / width
    ensures 0 <= maxWidth ==>
      var k := height * maxWidth / width;
      0 <= k <= height && k * width <= height * maxWidth < (k + 1) * width
    ensures maxWidth < 0 ==>
      var q := TruncDiv(height * maxWidth, width);
      q <= 0 && -q * width <= height * -maxWidth < (-q + 1) * width
  {
    if maxWidth < 0 {
      MulMonotone(maxWidth, 0, height);
      assert height * -maxWidth == -(height * maxWidth);
    } else {
      var n := height * maxWidth;
      MulMonotone(0, maxWidth, height);
      MulMonotone(maxWidth, width, height);
      assert 0 <= n <= width * height;
      var k := n / width;
      FloorDivBounds(n, width);
      assert TruncDiv(n, width) == k;
      if k > height {
        MulMonotone(height + 1, k, width);
        assert false;
      }
    }
  }

  /** The whole processing of one file, as the source's per-file `try`
      block does it: open, downscale, converge.  Whatever raises on the way
      ends the file with `Failed`. */
  function ProcessImage(f: ImageFile, maxWidth: int, budget: int, fuel: nat): (t: Trace)
    ensures |t.attempts| <= fuel
    // a file that does not open is never saved, and only such a file ends
    // with OpenFailed
    ensures t.ending == Failed(OpenFailed) <==> !f.opens
    ensures !f.opens ==> t.attempts == []
    // a file that has not finished is one that opened and used all its fuel
    ensures t.ending == OutOfFuel ==> f.opens && |t.attempts| == fuel
  {
    if !f.opens then Trace([], Failed(OpenFailed))
    else match InitialDownscale(f.codec, f.width, f.height, maxWidth)
      case Err(e) => Trace([], Failed(e))
      case Ok(start) =>
        RunSpendsFuel(f.codec, budget, start, fuel);
        Run(f.codec, budget, start, fuel)
  }

  /** One over-budget iteration as the source writes it: lower the
      quality, clamp it at 1, and fall back on the dimensions at 1. */
  method LowerQualityOrShrink(c: Codec, budget: int, a: Attempt) returns (r: Result<Setting>)
    requires a.size > budget
    ensures r == NextSetting(c, budget, a)
  {
    if budget == 0 {
      return Err(DivisionByZero);
    }
    var quality := a.setting.quality - QualityDecrease(a.size, budget);
    quality := Max(1, quality);
    if quality <= 1 {
      var width, height := Shrink(a.setting.width), Shrink(a.setting.height);
      if !c.resizes(width, height) {
        return Err(ResizeRejected);
      }
      return Ok(Setting(width, height, FallbackQuality));
    }
    return Ok(Setting(a.setting.width, a.setting.height, quality));
  }

  /** Run, unfolded once after a save that was over budget. */
  lemma RunAfterOverBudget(c: Codec, budget: int, s: Setting, fuel: nat, size: nat, next: Setting)
    requires fuel > 0 && c.encode(s.width, s.height, s.quality) == Some(size) && size > budget
    requires NextSetting(c, budget, Attempt(s, size)) == Ok(next)
    ensures Run(c, budget, s, fuel)
      == Trace([Attempt(s, size)] + Run(c, budget, next, fuel - 1).attempts, Run(c, budget, next, fuel - 1).ending)
  {
  }

  /** The convergence loop as the source writes it, one save per iteration. */
  method Converge(c: Codec, budget: int, start: Setting, fuel: nat) returns (t: Trace)
    ensures t == Run(c, budget, start, fuel)
  {
    ghost var whole := Run(c, budget, start, fuel);
    var setting := start;
    var attempts: seq<Attempt> := [];
    var left := fuel;
    ghost var rest := whole;
    while true
      invariant rest == Run(c, budget, setting, left)
      invariant whole == Trace(attempts + rest.attempts, rest.ending)
      decreases left
    {
      if left == 0 {
        assert attempts + [] == attempts;
        return Trace(attempts, OutOfFuel);
      }
      var encoded := c.encode(setting.width, setting.height, setting.quality);
      if encoded.None? {
        assert attempts + [] == attempts;
        return Trace(attempts, Failed(SaveFailed));
      }
      var a := Attempt(setting, encoded.value);
      if a.size <= budget {
        return Trace(attempts + [a], Fitted);
      }
      var next := LowerQualityOrShrink(c, budget, a);
      if next.Err? {
        return Trace(attempts + [a], Failed(next.error));
      }
      RunAfterOverBudget(c, budget, setting, left, a.size, next.value);
      ghost var tail := Run(c, budget, next.value, left - 1);
      assert attempts + ([a] + tail.attempts) == (attempts + [a]) + tail.attempts;
      attempts, setting, left, rest := attempts + [a], next.value, left - 1, tail;
    }
  }

  /** One file's processing as the source writes it. */
  method ResizeImage(f: ImageFile, maxWidth: int, budget: int, fuel: nat) returns (t: Trace)
    ensures t == ProcessImage(f, maxWidth, budget, fuel)
  {
    if !f.opens {
      return Trace([], Failed(OpenFailed));
    }
    var start := InitialDownscale(f.codec, f.width, f.height, maxWidth);
    if start.Err? {
      return Trace([], Failed(start.error));
    }
    t := Converge(f.codec, budget, start.value, fuel);
  }

  /* ---------------------------------------------------------------------
     What the loop guarantees
     --------------------------------------------------------------------- */

  /** The quality step counts whole 5%-of-budget units of overshoot,
      rounded down (not up), and is never below 2. */
  lemma DecreaseCountsWholeUnits(size: int, budget: int)
    requires 0 < budget < size
    ensures var d := QualityDecrease(size, budget);
      (d == 2 <==> 20 * (size - budget) < 3 * budget)
      && (d > 2 ==> d * budget <= 20 * (size - budget) < (d + 1) * budget)
  {
    var n := 20 * (size - budget);
    var k := n / budget;
    assert TruncDiv(n, budget) == k;
    FloorDivBounds(n, budget);
    if k <= 2 {
      MulMonotone(k + 1, 3, budget);
    } else {
      MulMonotone(3, k, budget);
    }
  }

  lemma MulMonotone(a: int, b: int, m: nat)
    requires a <= b
    ensures a * m <= b * m
  {
    assert b * m - a * m == (b - a) * m;
  }

  /** Consecutive saves are linked by NextSetting, and every save but the
      last one was over budget. */
  lemma {:induction false} RunChained(c: Codec, budget: int, s: Setting, fuel: nat)
    ensures var A := Run(c, budget, s, fuel).attempts;
      (|A| > 0 ==> A[0].setting == s)
      && forall i :: 0 <= i < |A| - 1 ==>
           A[i].size > budget && NextSetting(c, budget, A[i]) == Ok(A[i + 1].setting)
    decreases fuel
  {
    if fuel > 0 && c.encode(s.width, s.height, s.quality).Some? {
      var a := Attempt(s, c.encode(s.width, s.height, s.quality).value);
      if a.size > budget && NextSetting(c, budget, a).Ok? {
        var next := NextSetting(c, budget, a).value;
        RunChained(c, budget, next, fuel - 1);
        var R := Run(c, budget, next, fuel - 1).attempts;
        var A := Run(c, budget, s, fuel).attempts;
        assert A == [a] + R;
        forall i | 0 <= i < |A| - 1
          ensures A[i].size > budget && NextSetting(c, budget, A[i]) == Ok(A[i + 1].setting)
        {
          if i > 0 {
            assert A[i] == R[i - 1] && A[i + 1] == R[i];
          }
        }
      }
    }
  }

  /** The loop ends successfully exactly when its last save is within
      budget: it never stops on a file that is still too big, and never
      goes on past one that fits. */
  lemma {:induction false} RunFitsExactlyWhenWithinBudget(c: Codec, budget: int, s: Setting, fuel: nat)
    ensures var t := Run(c, budget, s, fuel);
      t.ending == Fitted <==> |t.attempts| > 0 && t.attempts[|t.attempts| - 1].size <= budget
    decreases fuel
  {
    if fuel > 0 && c.encode(s.width, s.height, s.quality).Some? {
      var a := Attempt(s, c.encode(s.width, s.height, s.quality).value);
      if a.size > budget && NextSetting(c, budget, a).Ok? {
        var next := NextSetting(c, budget, a).value;
        RunFitsExactlyWhenWithinBudget(c, budget, next, fuel - 1);
        var rest := Run(c, budget, next, fuel - 1);
        var A := Run(c, budget, s, fuel).attempts;
        assert A == [a] + rest.attempts;
        assert |rest.attempts| > 0 ==> A[|A| - 1] == rest.attempts[|rest.attempts| - 1];
      }
    }
  }

  /** Starting from a quality in [2, 90], every save uses a quality in
      [2, 90]: quality 1 is never saved. */
  lemma {:induction false} RunQualityBounds(c: Codec, budget: int, s: Setting, fuel: nat)
    requires 2 <= s.quality <= StartQuality
    ensures forall a :: a in Run(c, budget, s, fuel).attempts ==> 2 <= a.setting.quality <= StartQuality
    decreases fuel
  {
    if fuel > 0 && c.encode(s.width, s.height, s.quality).Some? {
      var a := Attempt(s, c.encode(s.width, s.height, s.quality).value);
      if a.size > budget && NextSetting(c, budget, a).Ok? {
        var next := NextSetting(c, budget, a).value;
        RunQualityBounds(c, budget, next, fuel - 1);
        assert Run(c, budget, s, fuel).attempts == [a] + Run(c, budget, next, fuel - 1).attempts;
      }
    }
  }

  /** Dimensions never grow in the loop: every save is at most as wide and
      as high as the image the loop started with. */
  lemma {:induction false} RunDimensionsNeverGrow(c: Codec, budget: int, s: Setting, fuel: nat)
    requires s.width >= 0 && s.height >= 0
    ensures forall a :: a in Run(c, budget, s, fuel).attempts ==>
      0 <= a.setting.width <= s.width && 0 <= a.setting.height <= s.height
    decreases fuel
  {
    if fuel > 0 && c.encode(s.width, s.height, s.quality).Some? {
      var a := Attempt(s, c.encode(s.width, s.height, s.quality).value);
      if a.size > budget && NextSetting(c, budget, a).Ok? {
        var next := NextSetting(c, budget, a).value;
        RunDimensionsNeverGrow(c, budget, next, fuel - 1);
        assert Run(c, budget, s, fuel).attempts == [a] + Run(c, budget, next, fuel - 1).attempts;
      }
    }
  }

  /** Between two consecutive saves either the dimensions stayed and the
      quality dropped by at least 2, or both dimensions were shrunk to
      `int(0.9 * d)` and the quality reset to 80. */
  lemma ConsecutiveSaves(c: Codec, budget: int, s: Setting, fuel: nat)
    ensures var A := Run(c, budget, s, fuel).attempts;
      forall i :: 0 <= i < |A| - 1 ==>
        (A[i + 1].setting.width == A[i].setting.width && A[i + 1].setting.height == A[i].setting.height
          && A[i + 1].setting.quality <= A[i].setting.quality - 2)
        || A[i + 1].setting == Setting(Shrink(A[i].setting.width), Shrink(A[i].setting.height), FallbackQuality)
  {
    RunChained(c, budget, s, fuel);
  }

  /* ---------------------------------------------------------------------
     Termination
     --------------------------------------------------------------------- */

  predicate OverBudget(encoded: Option<nat>, budget: int)
  {
    encoded.Some? && encoded.value > budget
  }

  /** The one way the source's `while True` can go on forever is at 0 x 0,
      the only size a fallback does not shrink.  This hypothesis rules it
      out: either the library refuses to resize to 0 x 0, or an empty image
      is never saved over budget. */
  ghost predicate NoSpinAtEmpty(c: Codec, budget: int)
  {
    !c.resizes(0, 0) || forall q :: 2 <= q <= StartQuality ==> !OverBudget(c.encode(0, 0, q), budget)
  }

  /** A measure that every iteration of the loop lowers. */
  function Potential(s: Setting): int
  {
    s.quality + 92 * (Abs(s.width) + Abs(s.height))
  }

  /** Under NoSpinAtEmpty the loop ends within Potential(s) saves: each
      save lowers the potential by at least 2, since the quality drops by 2
      at fixed dimensions and each fallback strictly shrinks the image. */
  lemma {:induction false} RunTerminates(c: Codec, budget: int, s: Setting, fuel: nat)
    requires NoSpinAtEmpty(c, budget)
    requires 2 <= s.quality <= StartQuality
    requires fuel >= Potential(s)
    ensures Run(c, budget, s, fuel).ending != OutOfFuel
    decreases fuel
  {
    var encoded := c.encode(s.width, s.height, s.quality);
    if encoded.Some? && encoded.value > budget {
      var a := Attempt(s, encoded.value);
      if NextSetting(c, budget, a).Ok? {
        var next := NextSetting(c, budget, a).value;
        if next.width == s.width && next.height == s.height && next.quality <= s.quality - 2 {
          assert Potential(next) < Potential(s);
        } else {
          if s.width == 0 && s.height == 0 {
            assert false;
          }
          assert Abs(next.width) + Abs(next.height) < Abs(s.width) + Abs(s.height);
          assert Potential(next) <= Potential(s) - 14;
        }
        RunTerminates(c, budget, next, fuel - 1);
      }
    }
  }

  /** Without such a hypothesis the loop need not end: a library that
      accepts every resize and never produces a small enough file keeps the
      source's `while True` going for ever. */
  lemma {:induction false} RunSpinsWhenNothingFits(c: Codec, budget: int, s: Setting, fuel: nat)
    requires budget != 0
    requires forall w, h :: c.resizes(w, h)
    requires forall w, h, q :: OverBudget(c.encode(w, h, q), budget)
    ensures Run(c, budget, s, fuel).ending == OutOfFuel
    decreases fuel
  {
    if fuel > 0 {
      var encoded := c.encode(s.width, s.height, s.quality);
      assert OverBudget(encoded, budget);
      var a := Attempt(s, encoded.value);
      var lowered := Max(1, s.quality - QualityDecrease(a.size, budget));
      if lowered <= 1 {
        assert c.resizes(Shrink(s.width), Shrink(s.height));
      }
      RunSpinsWhenNothingFits(c, budget, NextSetting(c, budget, a).value, fuel - 1);
    }
  }

  /* ---------------------------------------------------------------------
     One file, end to end
     --------------------------------------------------------------------- */

  /** The first save of a file is at quality 90, at the opened dimensions
      when the image is no wider than maxWidth, and otherwise at maxWidth
      wide and the height scaled by the same ratio, rounded down. */
  lemma FirstSave(f: ImageFile, maxWidth: int, budget: int, fuel: nat)
    requires 0 <= maxWidth
    ensures var A := ProcessImage(f, maxWidth, budget, fuel).attempts;
      |A| > 0 ==>
        f.opens
        && (f.width <= maxWidth ==> A[0].setting == Setting(f.width, f.height, StartQuality))
        && (f.width > maxWidth ==> A[0].setting == Setting(maxWidth, f.height * maxWidth / f.width, StartQuality))
  {
    if f.opens && InitialDownscale(f.codec, f.width, f.height, maxWidth).Ok? {
      RunChained(f.codec, budget, InitialDownscale(f.codec, f.width, f.height, maxWidth).value, fuel);
    }
  }

  /** Every save of a file is at a quality in [2, 90] and, when maxWidth
      is not negative, at most maxWidth wide and at most as high as the
      opened image. */
  lemma EverySaveWithinBounds(f: ImageFile, maxWidth: int, budget: int, fuel: nat)
    ensures forall a :: a in ProcessImage(f, maxWidth, budget, fuel).attempts ==>
      2 <= a.setting.quality <= StartQuality
      && (0 <= maxWidth ==> 0 <= a.setting.width <= maxWidth && 0 <= a.setting.height <= f.height)
  {
    if f.opens && InitialDownscale(f.codec, f.width, f.height, maxWidth).Ok? {
      var start := InitialDownscale(f.codec, f.width, f.height, maxWidth).value;
      RunQualityBounds(f.codec, budget, start, fuel);
      if 0 <= maxWidth {
        RunDimensionsNeverGrow(f.codec, budget, start, fuel);
      }
    }
  }

  /** A file that is processed successfully ends with a save within budget,
      at most maxWidth wide when maxWidth is not negative. */
  lemma FittedFileIsWithinBudget(f: ImageFile, maxWidth: int, budget: int, fuel: nat)
    ensures var t := ProcessImage(f, maxWidth, budget, fuel);
      t.ending == Fitted ==>
        |t.attempts| > 0
        && t.attempts[|t.attempts| - 1].size <= budget
        && (0 <= maxWidth ==> t.attempts[|t.attempts| - 1].setting.width <= maxWidth)
  {
    if f.opens && InitialDownscale(f.codec, f.width, f.height, maxWidth).Ok? {
      var start := InitialDownscale(f.codec, f.width, f.height, maxWidth).value;
      RunFitsExactlyWhenWithinBudget(f.codec, budget, start, fuel);
      EverySaveWithinBounds(f, maxWidth, budget, fuel);
      var A := ProcessImage(f, maxWidth, budget, fuel).attempts;
      if |A| > 0 {
        assert A[|A| - 1] in A;
      }
    }
  }

  /** Under NoSpinAtEmpty, a fuel of 90 + 92 * (width + height) saves is
      always enough: the model's bound is never what ends a file. */
  lemma ProcessImageTerminates(f: ImageFile, maxWidth: int, budget: int, fuel: nat)
    requires NoSpinAtEmpty(f.codec, budget)
    requires 0 <= maxWidth
    requires fuel >= StartQuality + 92 * (f.width + f.height)
    ensures ProcessImage(f, maxWidth, budget, fuel).ending != OutOfFuel
  {
    if f.opens && InitialDownscale(f.codec, f.width, f.height, maxWidth).Ok? {
      var start := InitialDownscale(f.codec, f.width, f.height, maxWidth).value;
      assert Potential(start) <= StartQuality + 92 * (f.width + f.height);
      RunTerminates(f.codec, budget, start, fuel);
    }
  }
}
