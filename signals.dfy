/** Candlestick pattern detectors gated by a volume spike (`tickers/signals.py`).

    Every detector is a column of booleans over the bars, one per row. A value
    shifted in from before the first row is missing, and every comparison with
    a missing value is false, so a detector that looks back `k` bars is false
    on the first `k` rows. */
module Signals {
  import opened Wrappers
  import opened Table

  /** The look-back and threshold every detector passes to `is_high_volume`. */
  const VolumeWindow: nat := 100
  const VolumeZThreshold: real := 1.5

  // ------------------------------------------------------------ volume

  /** `(vol - vol_mean) / (vol_std + 1e-9)` at row `i`, over a trailing window
      that must hold `window` volumes (the pandas default `min_periods`). */
  function VolumeZ(bars: seq<Bar>, std: seq<real> -> real, window: nat, i: nat): Option<real>
    requires i < |bars| && StdNonnegative(std)
  {
    var vols := Lift(Volumes(bars));
    var m := RollingMean(vols, window, window, i);
    var s := RollingStd(vols, std, window, window, i);
    if m.Some? && s.Some? then Some(ZScore(bars[i].volume, m.value, s.value)) else None
  }

  /** `z_score > z_thresh` at row `i`; false where the z-score is missing. */
  predicate HighVolumeAt(bars: seq<Bar>, std: seq<real> -> real, window: nat, zThresh: real, i: nat)
    requires i < |bars| && StdNonnegative(std)
  {
    var z := VolumeZ(bars, std, window, i);
    z.Some? && z.value > zThresh
  }

  /** `is_high_volume`: one flag per bar. */
  function IsHighVolume(bars: seq<Bar>, std: seq<real> -> real, window: nat, zThresh: real): (r: seq<bool>)
    requires StdNonnegative(std)
    ensures |r| == |bars|
    ensures forall i :: 0 <= i < |bars| && i + 1 < window ==> !r[i]
    ensures forall i :: 0 <= i < |bars| && r[i] ==> window >= 2
  {
    seq(|bars|, i requires 0 <= i < |bars| => HighVolumeAt(bars, std, window, zThresh, i))
  }

  /** A spike is never flagged before the window is full; once it is, the flag
      is the z-score of the raw volume against the window's mean and standard
      deviation, compared with the threshold. */
  lemma HighVolumeExactly(bars: seq<Bar>, std: seq<real> -> real, window: nat, zThresh: real, i: nat)
    requires i < |bars| && StdNonnegative(std)
    ensures HighVolumeAt(bars, std, window, zThresh, i) ==> window >= 2 && i + 1 >= window
    ensures window >= 2 && i + 1 >= window ==>
      (HighVolumeAt(bars, std, window, zThresh, i) <==>
       ZScore(bars[i].volume, Mean(Trailing(Volumes(bars), window, i)), std(Trailing(Volumes(bars), window, i))) > zThresh)
  {
    RollingMeanOfLift(Volumes(bars), window, window, i);
    RollingStdOfLift(Volumes(bars), std, window, window, i);
  }

  /** Volume that has not changed over the whole window is never a spike,
      whatever (non-negative) threshold is used. */
  lemma FlatVolumeIsNotHigh(bars: seq<Bar>, std: seq<real> -> real, window: nat, zThresh: real, i: nat)
    requires i < |bars| && StdNonnegative(std) && zThresh >= 0.0
    requires forall k :: WindowStart(window, i) <= k <= i ==> bars[k].volume == bars[i].volume
    ensures !HighVolumeAt(bars, std, window, zThresh, i)
  {
    HighVolumeExactly(bars, std, window, zThresh, i);
    if window >= 2 && i + 1 >= window {
      var w := Trailing(Volumes(bars), window, i);
      assert forall k :: 0 <= k < |w| ==> w[k] == bars[WindowStart(window, i) + k].volume;
      MeanOfConstant(w, bars[i].volume);
      assert ZScore(bars[i].volume, Mean(w), std(w)) == 0.0;
    }
  }

  // ---------------------------------------------------------- candles

  function Min(a: real, b: real): real { if a <= b then a else b }
  function Max(a: real, b: real): real { if a >= b then a else b }

  /** `(Close - Open).abs()`. */
  function Body(b: Bar): (r: real)
    ensures r >= 0.0 && (r == b.close - b.open || r == b.open - b.close)
  {
    if b.close >= b.open then b.close - b.open else b.open - b.close
  }

  /** `High - Low + 1e-9`. */
  function Range(b: Bar): real {
    b.high - b.low + Eps
  }

  function LowerTail(b: Bar): real {
    Min(b.open, b.close) - b.low
  }

  function UpperTail(b: Bar): real {
    b.high - Max(b.open, b.close)
  }

  /** `num / den < t` for a numerator that is never negative. Dividing by an
      exact zero gives infinity or NaN in floating point, and neither is below
      a finite threshold. */
  predicate RatioBelow(num: real, den: real, t: real) {
    den != 0.0 && num / den < t
  }

  // --------------------------------------------------------- detectors

  /** The single-bar hammer conditions. */
  predicate HammerShape(b: Bar, bodyThresh: real, tailThresh: real) {
    RatioBelow(Body(b), Range(b), bodyThresh) &&
    LowerTail(b) / (Body(b) + Eps) > tailThresh &&
    LowerTail(b) > UpperTail(b) &&
    UpperTail(b) / (Body(b) + Eps) < 0.5
  }

  /** The single-bar shooting-star conditions. */
  predicate ShootingStarShape(b: Bar, bodyThresh: real, tailThresh: real) {
    RatioBelow(Body(b), Range(b), bodyThresh) &&
    UpperTail(b) / (Body(b) + Eps) > tailThresh &&
    UpperTail(b) > LowerTail(b)
  }

  /** A bearish bar followed by a bullish bar whose body engulfs it. */
  predicate BullishEngulfingPair(prev: Bar, cur: Bar) {
    prev.close < prev.open && cur.close > cur.open && cur.open < prev.close && cur.close > prev.open
  }

  /** A bullish bar followed by a bearish bar whose body engulfs it. */
  predicate BearishEngulfingPair(prev: Bar, cur: Bar) {
    prev.close > prev.open && cur.close < cur.open && cur.open > prev.close && cur.close < prev.open
  }

  /** A bearish bar, a small-bodied bar, then a bullish bar closing above the
      midpoint of the first bar's body. */
  predicate MorningStarTriple(first: Bar, second: Bar, third: Bar) {
    first.close < first.open &&
    RatioBelow(Body(second), Range(second), 0.3) &&
    third.close > third.open &&
    third.close > (first.open + first.close) / 2.0
  }

  /** The volume gate all detectors share: `is_high_volume(df)` with its defaults. */
  predicate Spike(bars: seq<Bar>, std: seq<real> -> real, i: nat)
    requires i < |bars| && StdNonnegative(std)
  {
    HighVolumeAt(bars, std, VolumeWindow, VolumeZThreshold, i)
  }

  /** `detect_hammer`. */
  function DetectHammer(bars: seq<Bar>, std: seq<real> -> real, bodyThresh: real, tailThresh: real): (r: seq<bool>)
    requires StdNonnegative(std)
    ensures |r| == |bars|
    ensures forall i :: 0 <= i < |bars| && r[i] ==> Spike(bars, std, i)
  {
    seq(|bars|, i requires 0 <= i < |bars| => HammerShape(bars[i], bodyThresh, tailThresh) && Spike(bars, std, i))
  }

  /** `detect_bullish_engulfing`: row 0 has no previous bar and is false. */
  function DetectBullishEngulfing(bars: seq<Bar>, std: seq<real> -> real): (r: seq<bool>)
    requires StdNonnegative(std)
    ensures |r| == |bars|
    ensures |bars| > 0 ==> !r[0]
    ensures forall i :: 0 <= i < |bars| && r[i] ==> Spike(bars, std, i)
  {
    seq(|bars|, i requires 0 <= i < |bars| =>
      i >= 1 && BullishEngulfingPair(bars[i - 1], bars[i]) && Spike(bars, std, i))
  }

  /** `detect_bearish_engulfing`: row 0 has no previous bar and is false. */
  function DetectBearishEngulfing(bars: seq<Bar>, std: seq<real> -> real): (r: seq<bool>)
    requires StdNonnegative(std)
    ensures |r| == |bars|
    ensures |bars| > 0 ==> !r[0]
    ensures forall i :: 0 <= i < |bars| && r[i] ==> Spike(bars, std, i)
  {
    seq(|bars|, i requires 0 <= i < |bars| =>
      i >= 1 && BearishEngulfingPair(bars[i - 1], bars[i]) && Spike(bars, std, i))
  }

  /** `detect_morning_star`: rows 0 and 1 lack two previous bars and are false. */
  function DetectMorningStar(bars: seq<Bar>, std: seq<real> -> real): (r: seq<bool>)
    requires StdNonnegative(std)
    ensures |r| == |bars|
    ensures forall i :: 0 <= i < |bars| && i < 2 ==> !r[i]
    ensures forall i :: 0 <= i < |bars| && r[i] ==> Spike(bars, std, i)
  {
    seq(|bars|, i requires 0 <= i < |bars| =>
      i >= 2 && MorningStarTriple(bars[i - 2], bars[i - 1], bars[i]) && Spike(bars, std, i))
  }

  /** `detect_shooting_star`. */
  function DetectShootingStar(bars: seq<Bar>, std: seq<real> -> real, bodyThresh: real, tailThresh: real): (r: seq<bool>)
    requires StdNonnegative(std)
    ensures |r| == |bars|
    ensures forall i :: 0 <= i < |bars| && r[i] ==> Spike(bars, std, i)
  {
    seq(|bars|, i requires 0 <= i < |bars| => ShootingStarShape(bars[i], bodyThresh, tailThresh) && Spike(bars, std, i))
  }

  // ------------------------------------------------ division-free forms

  lemma DivBelow(x: real, d: real, t: real)
    requires d > 0.0
    ensures x / d < t <==> x < t * d
  {
    assert x == (x / d) * d;
    if x / d < t {
      assert (t - x / d) * d > 0.0;
    } else {
      assert (x / d - t) * d >= 0.0;
    }
  }

  lemma DivAbove(x: real, d: real, t: real)
    requires d > 0.0
    ensures x / d > t <==> x > t * d
  {
    assert x == (x / d) * d;
    if x / d > t {
      assert (x / d - t) * d > 0.0;
    } else {
      assert (t - x / d) * d >= 0.0;
    }
  }

  /** On a bar whose high is not below its low, the hammer is a set of linear
      inequalities between body, range and tails. */
  lemma HammerWithoutDivision(b: Bar, bodyThresh: real, tailThresh: real)
    requires b.high >= b.low
    ensures HammerShape(b, bodyThresh, tailThresh) <==>
      Body(b) < bodyThresh * Range(b) &&
      LowerTail(b) > tailThresh * (Body(b) + Eps) &&
      LowerTail(b) > UpperTail(b) &&
      UpperTail(b) < 0.5 * (Body(b) + Eps)
  {
    DivBelow(Body(b), Range(b), bodyThresh);
    DivAbove(LowerTail(b), Body(b) + Eps, tailThresh);
    DivBelow(UpperTail(b), Body(b) + Eps, 0.5);
  }

  /** On a bar whose high is not below its low, the shooting star is a set of
      linear inequalities between body, range and tails. */
  lemma ShootingStarWithoutDivision(b: Bar, bodyThresh: real, tailThresh: real)
    requires b.high >= b.low
    ensures ShootingStarShape(b, bodyThresh, tailThresh) <==>
      Body(b) < bodyThresh * Range(b) &&
      UpperTail(b) > tailThresh * (Body(b) + Eps) &&
      UpperTail(b) > LowerTail(b)
  {
    DivBelow(Body(b), Range(b), bodyThresh);
    DivAbove(UpperTail(b), Body(b) + Eps, tailThresh);
  }

  /** A range of exactly zero (a bar whose high is `1e-9` below its low) never
      passes a body-ratio test: not the hammer's, not the shooting star's, and
      not the morning star's test on its middle bar. */
  lemma ZeroRangeNeverPasses(b: Bar, bodyThresh: real, tailThresh: real)
    requires Range(b) == 0.0
    ensures !HammerShape(b, bodyThresh, tailThresh) && !ShootingStarShape(b, bodyThresh, tailThresh)
    ensures forall first: Bar, third: Bar :: !MorningStarTriple(first, b, third)
  {
  }

  /** The second bar of a morning star has a body under 0.3 of its range. */
  lemma MorningStarSmallMiddle(first: Bar, second: Bar, third: Bar)
    requires second.high >= second.low && MorningStarTriple(first, second, third)
    ensures Body(second) < 0.3 * Range(second)
  {
    DivBelow(Body(second), Range(second), 0.3);
  }

  // ---------------------------------------------------------- meaning

  /** A bullish engulfing bar opens below the previous close and closes above
      the previous open, so its body strictly contains the previous body. */
  lemma BullishEngulfingContainsPrevious(bars: seq<Bar>, std: seq<real> -> real, i: nat)
    requires StdNonnegative(std) && i < |bars|
    requires DetectBullishEngulfing(bars, std)[i]
    ensures i >= 1
    ensures bars[i].open < bars[i - 1].close < bars[i - 1].open < bars[i].close
    ensures Body(bars[i]) > Body(bars[i - 1])
  {
  }

  /** A bearish engulfing bar opens above the previous close and closes below
      the previous open, so its body strictly contains the previous body. */
  lemma BearishEngulfingContainsPrevious(bars: seq<Bar>, std: seq<real> -> real, i: nat)
    requires StdNonnegative(std) && i < |bars|
    requires DetectBearishEngulfing(bars, std)[i]
    ensures i >= 1
    ensures bars[i].close < bars[i - 1].open < bars[i - 1].close < bars[i].open
    ensures Body(bars[i]) > Body(bars[i - 1])
  {
  }

  /** The third bar of a morning star closes above the first bar's close. */
  lemma MorningStarRecovers(bars: seq<Bar>, std: seq<real> -> real, i: nat)
    requires StdNonnegative(std) && i < |bars|
    requires DetectMorningStar(bars, std)[i]
    ensures i >= 2 && bars[i].close > bars[i - 2].close
  {
  }

  /** Bullish and bearish engulfing never fire on the same row. */
  lemma EngulfingExclusive(bars: seq<Bar>, std: seq<real> -> real, i: nat)
    requires StdNonnegative(std) && i < |bars|
    ensures !(DetectBullishEngulfing(bars, std)[i] && DetectBearishEngulfing(bars, std)[i])
  {
  }

  /** Hammer and shooting star never fire on the same row, whatever thresholds
      each is given: their tail comparisons are opposite. */
  lemma HammerShootingStarExclusive(bars: seq<Bar>, std: seq<real> -> real,
                                    hb: real, ht: real, sb: real, st: real, i: nat)
    requires StdNonnegative(std) && i < |bars|
    ensures !(DetectHammer(bars, std, hb, ht)[i] && DetectShootingStar(bars, std, sb, st)[i])
  {
  }

  /** The volume gate at row `i` depends only on bars `0..i`. */
  lemma SpikeNoLookahead(bars: seq<Bar>, other: seq<Bar>, std: seq<real> -> real, i: nat)
    requires StdNonnegative(std) && i < |bars| && i < |other| && bars[..i + 1] == other[..i + 1]
    ensures Spike(bars, std, i) == Spike(other, std, i)
  {
    var xs, ys := Lift(Volumes(bars)), Lift(Volumes(other));
    assert forall k :: 0 <= k <= i ==> xs[k] == ys[k] by {
      forall k | 0 <= k <= i ensures xs[k] == ys[k] {
        assert bars[k] == bars[..i + 1][k];
      }
    }
    assert xs[..i + 1] == ys[..i + 1];
    RollingNoLookahead(xs, ys, std, VolumeWindow, VolumeWindow, i);
    assert bars[i] == other[i] by {
      assert bars[i] == bars[..i + 1][i];
    }
  }

  /** Whether a detector fires at row `i` depends only on bars `0..i`. */
  lemma DetectorsNoLookahead(bars: seq<Bar>, other: seq<Bar>, std: seq<real> -> real, i: nat)
    requires StdNonnegative(std) && i < |bars| && i < |other| && bars[..i + 1] == other[..i + 1]
    ensures IsHighVolume(bars, std, VolumeWindow, VolumeZThreshold)[i] ==
            IsHighVolume(other, std, VolumeWindow, VolumeZThreshold)[i]
    ensures forall hb, ht :: DetectHammer(bars, std, hb, ht)[i] == DetectHammer(other, std, hb, ht)[i]
    ensures forall sb, st :: DetectShootingStar(bars, std, sb, st)[i] == DetectShootingStar(other, std, sb, st)[i]
    ensures DetectBullishEngulfing(bars, std)[i] == DetectBullishEngulfing(other, std)[i]
    ensures DetectBearishEngulfing(bars, std)[i] == DetectBearishEngulfing(other, std)[i]
    ensures DetectMorningStar(bars, std)[i] == DetectMorningStar(other, std)[i]
  {
    SpikeNoLookahead(bars, other, std, i);
    assert forall k :: 0 <= k <= i ==> bars[k] == other[k] by {
      forall k | 0 <= k <= i ensures bars[k] == other[k] {
        assert bars[k] == bars[..i + 1][k];
      }
    }
  }
}
