/**
 * The indicator engine: simple and exponential moving averages of the
 * close, RSI and MACD, each added to a copy of the table as new columns.
 * Arithmetic is exact (`real`); the source's 1e-9 guard is `Eps`.
 */
module Indicators {
  import opened Wrappers
  import opened Table

  // ------------------------------------------------------------------ SMA

  /** `Close.rolling(window=span).mean()`. */
  function SmaOf(xs: seq<real>, span: nat): (r: seq<Option<real>>)
    ensures |r| == |xs|
  {
    seq(|xs|, i requires 0 <= i < |xs| => RollingMean(Lift(xs), span, span, i))
  }

  /** The SMA is missing until the window is full, and is then the mean of
      the last `span` closes. */
  lemma SmaValues(xs: seq<real>, span: nat)
    ensures forall i :: 0 <= i < |xs| ==>
      SmaOf(xs, span)[i] ==
      if span >= 1 && i + 1 >= span then Some(Mean(xs[i + 1 - span..i + 1])) else None
  {
    forall i | 0 <= i < |xs|
      ensures SmaOf(xs, span)[i] ==
        if span >= 1 && i + 1 >= span then Some(Mean(xs[i + 1 - span..i + 1])) else None
    {
      RollingMeanOfLift(xs, span, span, i);
    }
  }

  // ------------------------------------------------------------------ EMA

  /** The smoothing factor of `ewm(span=span)`. */
  function Alpha(span: nat): (a: real)
    ensures 0.0 < a
    ensures span >= 1 ==> a <= 1.0
  {
    2.0 / (span as real + 1.0)
  }

  /** One smoothing step: the new input weighted by `alpha`, the previous
      average by `1 - alpha`. */
  function Blend(alpha: real, x: real, e: real): real {
    alpha * x + (1.0 - alpha) * e
  }

  /** `ewm(alpha, adjust=False).mean()`: seeded by the first value, then
      each value blends the new input with the previous average. */
  function EmaOf(xs: seq<real>, alpha: real): (r: seq<real>)
    ensures |r| == |xs|
    decreases |xs|
  {
    if xs == [] then []
    else if |xs| == 1 then [xs[0]]
    else
      var prev := EmaOf(xs[..|xs| - 1], alpha);
      prev + [Blend(alpha, xs[|xs| - 1], prev[|prev| - 1])]
  }

  /** The average of a prefix is the prefix of the average: no lookahead. */
  lemma {:induction false} EmaPrefix(xs: seq<real>, alpha: real, k: nat)
    requires k <= |xs|
    ensures EmaOf(xs[..k], alpha) == EmaOf(xs, alpha)[..k]
    decreases |xs|
  {
    if k < |xs| {
      if |xs| == 1 {
        assert xs[..k] == [];
      } else {
        var init := xs[..|xs| - 1];
        EmaPrefix(init, alpha, k);
        assert init[..k] == xs[..k];
      }
    } else {
      assert xs[..k] == xs;
    }
  }

  /** One step of the average: the last value blends the last input with the
      value before it, and what comes before is the average of the shorter input. */
  lemma EmaLast(xs: seq<real>, alpha: real)
    requires |xs| >= 2
    ensures EmaOf(xs, alpha)[..|xs| - 1] == EmaOf(xs[..|xs| - 1], alpha)
    ensures EmaOf(xs, alpha)[|xs| - 1] == Blend(alpha, xs[|xs| - 1], EmaOf(xs, alpha)[|xs| - 2])
  {
    var prev := EmaOf(xs[..|xs| - 1], alpha);
    var next := Blend(alpha, xs[|xs| - 1], prev[|prev| - 1]);
    assert EmaOf(xs, alpha) == prev + [next];
    assert EmaOf(xs, alpha)[|xs| - 2] == prev[|prev| - 1];
  }

  /** The average is seeded by the first value. */
  lemma {:induction false} EmaFirst(xs: seq<real>, alpha: real)
    requires |xs| > 0
    ensures EmaOf(xs, alpha)[0] == xs[0]
    decreases |xs|
  {
    if |xs| >= 2 {
      var init := xs[..|xs| - 1];
      EmaLast(xs, alpha);
      EmaFirst(init, alpha);
      assert EmaOf(xs, alpha)[0] == EmaOf(xs, alpha)[..|xs| - 1][0];
    }
  }

  /** The recurrence of `ewm(adjust=False)`: EMA[0] = x[0] and
      EMA[i] = alpha * x[i] + (1 - alpha) * EMA[i - 1]. */
  lemma EmaRecurrence(xs: seq<real>, alpha: real, i: nat)
    requires 0 < i < |xs|
    ensures EmaOf(xs, alpha)[0] == xs[0]
    ensures EmaOf(xs, alpha)[i] == alpha * xs[i] + (1.0 - alpha) * EmaOf(xs, alpha)[i - 1]
  {
    EmaFirst(xs, alpha);
    var e := EmaOf(xs, alpha);
    var p := xs[..i + 1];
    EmaPrefix(xs, alpha, i + 1);
    EmaLast(p, alpha);
    var ep := EmaOf(p, alpha);
    assert ep[i] == e[i] && ep[i - 1] == e[i - 1];
    assert p[i] == xs[i];
  }

  /** Closes 10, 11, 12 with span 2 (alpha = 2/3) average to 10, 32/3, 104/9. */
  lemma EmaExample()
    ensures EmaOf([10.0, 11.0, 12.0], Alpha(2)) == [10.0, 32.0 / 3.0, 104.0 / 9.0]
  {
    var xs := [10.0, 11.0, 12.0];
    assert Alpha(2) == 2.0 / 3.0;
    assert xs[..1] == [10.0];
    assert xs[..2] == [10.0, 11.0];
    assert xs[..2][..1] == [10.0];
    assert EmaOf(xs[..2], Alpha(2)) == [10.0, 32.0 / 3.0];
  }

  lemma BlendWithin(alpha: real, x: real, e: real, lo: real, hi: real)
    requires 0.0 < alpha <= 1.0 && lo <= x <= hi && lo <= e <= hi
    ensures lo <= Blend(alpha, x, e) <= hi
  {
    var d := x - e;
    assert Blend(alpha, x, e) == e + alpha * d;
    if d >= 0.0 {
      assert (1.0 - alpha) * d >= 0.0;
      assert 0.0 <= alpha * d <= d;
    } else {
      assert (1.0 - alpha) * -d >= 0.0;
      assert d <= alpha * d <= 0.0;
    }
  }

  /** An average with 0 < alpha <= 1 never leaves the range of the inputs. */
  lemma {:induction false} EmaWithinRange(xs: seq<real>, alpha: real, lo: real, hi: real)
    requires 0.0 < alpha <= 1.0
    requires forall i :: 0 <= i < |xs| ==> lo <= xs[i] <= hi
    ensures forall i :: 0 <= i < |xs| ==> lo <= EmaOf(xs, alpha)[i] <= hi
    decreases |xs|
  {
    if |xs| > 1 {
      var init := xs[..|xs| - 1];
      EmaWithinRange(init, alpha, lo, hi);
      var prev := EmaOf(init, alpha);
      var x, e := xs[|xs| - 1], prev[|prev| - 1];
      assert lo <= e <= hi;
      var next := Blend(alpha, x, e);
      BlendWithin(alpha, x, e, lo, hi);
      assert EmaOf(xs, alpha)[..|xs| - 1] == prev;
      assert EmaOf(xs, alpha)[|xs| - 1] == next;
    }
  }

  // ------------------------------------------------------------------ RSI

  /** `Close.diff()`: missing at row 0. */
  function Diff(xs: seq<real>): (d: seq<Option<real>>)
    ensures |d| == |xs|
  {
    seq(|xs|, i requires 0 <= i < |xs| => if i == 0 then None else Some(xs[i] - xs[i - 1]))
  }

  /** `delta.clip(lower=0)`: a missing delta stays missing. */
  function Gains(d: seq<Option<real>>): (g: seq<Option<real>>)
    ensures |g| == |d|
  {
    seq(|d|, i requires 0 <= i < |d| => if d[i].Some? then Some(if d[i].value > 0.0 then d[i].value else 0.0) else None)
  }

  /** `-delta.clip(upper=0)`. */
  function Losses(d: seq<Option<real>>): (l: seq<Option<real>>)
    ensures |l| == |d|
  {
    seq(|d|, i requires 0 <= i < |d| => if d[i].Some? then Some(if d[i].value < 0.0 then -d[i].value else 0.0) else None)
  }

  /** 100 - 100 / (1 + rs) with rs = avgGain / (avgLoss + 1e-9). */
  function RsiFormula(avgGain: real, avgLoss: real): (r: real)
    requires avgGain >= 0.0 && avgLoss >= 0.0
    ensures 0.0 <= r < 100.0
    ensures avgGain == 0.0 ==> r == 0.0
  {
    var rs := avgGain / (avgLoss + Eps);
    assert rs >= 0.0;
    100.0 - 100.0 / (1.0 + rs)
  }

  lemma RollingMeanNonnegative(xs: seq<Option<real>>, window: nat, minPeriods: nat, i: nat)
    requires i < |xs|
    requires forall k :: 0 <= k < |xs| && xs[k].Some? ==> xs[k].value >= 0.0
    ensures RollingMean(xs, window, minPeriods, i).Some? ==> RollingMean(xs, window, minPeriods, i).value >= 0.0
  {
    var w := Trailing(xs, window, i);
    PresentKeepsNonnegative(w);
    if |Present(w)| > 0 {
      MeanNonnegative(Present(w));
    }
  }

  /** RSI at row `i`; `None` while either rolling average is missing. */
  function RsiAt(xs: seq<real>, window: nat, i: nat): Option<real>
    requires i < |xs|
  {
    var g := RollingMean(Gains(Diff(xs)), window, window, i);
    var l := RollingMean(Losses(Diff(xs)), window, window, i);
    if g.Some? && l.Some? then
      RollingMeanNonnegative(Gains(Diff(xs)), window, window, i);
      RollingMeanNonnegative(Losses(Diff(xs)), window, window, i);
      Some(RsiFormula(g.value, l.value))
    else None
  }

  /** The `rsi_<window>` column: missing exactly on the first `window` rows
      (the first delta is missing, so the first full window ends at row
      `window`), and inside [0, 100) wherever defined. */
  function RsiOf(xs: seq<real>, window: nat): (r: seq<Option<real>>)
    ensures |r| == |xs|
    ensures forall i :: 0 <= i < |xs| ==> (r[i].Some? <==> window >= 1 && i >= window)
    ensures forall i :: 0 <= i < |xs| && r[i].Some? ==> 0.0 <= r[i].value < 100.0
  {
    RsiDefinedness(xs, window);
    seq(|xs|, i requires 0 <= i < |xs| => RsiAt(xs, window, i))
  }

  /** Observed values when every entry is present, or when only the first is missing. */
  lemma {:induction false} PresentCount(ys: seq<Option<real>>)
    requires forall k :: 0 < k < |ys| ==> ys[k].Some?
    ensures |Present(ys)| == if |ys| > 0 && ys[0].None? then |ys| - 1 else |ys|
  {
    if ys != [] {
      PresentCount(ys[..|ys| - 1]);
    }
  }

  /** Over a column missing only at row 0, a trailing window observes every
      row it covers except row 0. */
  lemma PresentAfterFirst(ys: seq<Option<real>>, window: nat, i: nat)
    requires i < |ys|
    requires forall k :: 0 <= k < |ys| ==> (ys[k].Some? <==> k >= 1)
    ensures |Present(Trailing(ys, window, i))| ==
      |Trailing(ys, window, i)| - (if WindowStart(window, i) == 0 then 1 else 0)
  {
    var w := Trailing(ys, window, i);
    var start := WindowStart(window, i);
    forall k | 0 < k < |w| ensures w[k].Some? {
      assert w[k] == ys[start + k];
    }
    PresentCount(w);
    if start == 0 {
      assert w[0] == ys[0];
    }
  }

  lemma RsiDefinedness(xs: seq<real>, window: nat)
    ensures forall i :: 0 <= i < |xs| ==> (RsiAt(xs, window, i).Some? <==> window >= 1 && i >= window)
  {
    var gains, losses := Gains(Diff(xs)), Losses(Diff(xs));
    assert forall k :: 0 <= k < |xs| ==> (gains[k].Some? <==> k >= 1);
    assert forall k :: 0 <= k < |xs| ==> (losses[k].Some? <==> k >= 1);
    forall i | 0 <= i < |xs|
      ensures RsiAt(xs, window, i).Some? <==> window >= 1 && i >= window
    {
      PresentAfterFirst(gains, window, i);
      PresentAfterFirst(losses, window, i);
    }
  }

  lemma {:induction false} PresentAllSome(ys: seq<Option<real>>)
    requires forall k :: 0 <= k < |ys| ==> ys[k].Some?
    ensures |Present(ys)| == |ys| && forall k :: 0 <= k < |ys| ==> Present(ys)[k] == ys[k].value
  {
    if ys != [] {
      PresentAllSome(ys[..|ys| - 1]);
    }
  }

  lemma FlatGainMean(xs: seq<real>, window: nat, i: nat)
    requires 1 <= window <= i < |xs|
    requires forall k :: i - window <= k <= i ==> xs[k] == xs[i]
    ensures RollingMean(Gains(Diff(xs)), window, window, i) == Some(0.0)
  {
    var gains := Gains(Diff(xs));
    var w := Trailing(gains, window, i);
    forall k | 0 <= k < |w| ensures w[k] == Some(0.0) {
      var j := i + 1 - window + k;
      assert w[k] == gains[j];
      assert xs[j] == xs[i] && xs[j - 1] == xs[i];
    }
    PresentAllSome(w);
    SumOfZeros(Present(w));
  }

  lemma FullLossWindow(xs: seq<real>, window: nat, i: nat)
    requires 1 <= window <= i < |xs|
    ensures RollingMean(Losses(Diff(xs)), window, window, i).Some?
  {
    var losses := Losses(Diff(xs));
    var w := Trailing(losses, window, i);
    forall k | 0 <= k < |w| ensures w[k].Some? {
      assert w[k] == losses[i + 1 - window + k];
    }
    PresentAllSome(w);
  }

  /** A window whose closes never move has no gain: RSI is 0, not 50. */
  lemma RsiOfFlatWindow(xs: seq<real>, window: nat, i: nat)
    requires 1 <= window <= i < |xs|
    requires forall k :: i - window <= k <= i ==> xs[k] == xs[i]
    ensures RsiAt(xs, window, i) == Some(0.0)
  {
    FlatGainMean(xs, window, i);
    FullLossWindow(xs, window, i);
  }

  // ----------------------------------------------------------------- MACD

  /** `macd_line`: the short EMA minus the long EMA. */
  function MacdLineOf(xs: seq<real>, spanShort: nat, spanLong: nat): (r: seq<real>)
    requires spanShort >= 1 && spanLong >= 1
    ensures |r| == |xs|
  {
    var s := EmaOf(xs, Alpha(spanShort));
    var l := EmaOf(xs, Alpha(spanLong));
    seq(|xs|, i requires 0 <= i < |xs| => s[i] - l[i])
  }

  /** `macd_signal`: the EMA of the MACD line. */
  function MacdSignalOf(xs: seq<real>, spanShort: nat, spanLong: nat, signalSpan: nat): (r: seq<real>)
    requires spanShort >= 1 && spanLong >= 1 && signalSpan >= 1
    ensures |r| == |xs|
  {
    EmaOf(MacdLineOf(xs, spanShort, spanLong), Alpha(signalSpan))
  }

  /** At row 0 both EMAs equal the first close, so line, signal and histogram are 0;
      afterwards the signal follows the EMA recurrence over the line. */
  lemma MacdIdentities(xs: seq<real>, spanShort: nat, spanLong: nat, signalSpan: nat, i: nat)
    requires spanShort >= 1 && spanLong >= 1 && signalSpan >= 1
    requires i < |xs|
    ensures MacdLineOf(xs, spanShort, spanLong)[0] == 0.0
    ensures MacdSignalOf(xs, spanShort, spanLong, signalSpan)[0] == 0.0
    ensures i > 0 ==>
      (MacdSignalOf(xs, spanShort, spanLong, signalSpan)[i] ==
       Alpha(signalSpan) * MacdLineOf(xs, spanShort, spanLong)[i] +
       (1.0 - Alpha(signalSpan)) * MacdSignalOf(xs, spanShort, spanLong, signalSpan)[i - 1])
  {
    var line := MacdLineOf(xs, spanShort, spanLong);
    if |xs| == 1 {
    } else {
      EmaRecurrence(xs, Alpha(spanShort), 1);
      EmaRecurrence(xs, Alpha(spanLong), 1);
      EmaRecurrence(line, Alpha(signalSpan), if i > 0 then i else 1);
    }
  }

  // ------------------------------------------------------ no lookahead

  lemma EmaPrefixesAgree(xs: seq<real>, ys: seq<real>, i: nat, alpha: real)
    requires i < |xs| && i < |ys| && xs[..i + 1] == ys[..i + 1]
    ensures EmaOf(xs, alpha)[..i + 1] == EmaOf(ys, alpha)[..i + 1]
    ensures forall k :: 0 <= k <= i ==> EmaOf(xs, alpha)[k] == EmaOf(ys, alpha)[k]
  {
    EmaPrefix(xs, alpha, i + 1);
    EmaPrefix(ys, alpha, i + 1);
    forall k | 0 <= k <= i ensures EmaOf(xs, alpha)[k] == EmaOf(ys, alpha)[k] {
      assert EmaOf(xs, alpha)[k] == EmaOf(xs, alpha)[..i + 1][k];
      assert EmaOf(ys, alpha)[k] == EmaOf(ys, alpha)[..i + 1][k];
    }
  }

  lemma SmaNoLookahead(xs: seq<real>, ys: seq<real>, i: nat, span: nat)
    requires i < |xs| && i < |ys| && xs[..i + 1] == ys[..i + 1]
    ensures SmaOf(xs, span)[i] == SmaOf(ys, span)[i]
  {
    SmaValues(xs, span);
    SmaValues(ys, span);
    if span >= 1 && i + 1 >= span {
      assert xs[i + 1 - span..i + 1] == ys[i + 1 - span..i + 1];
    }
  }

  lemma RsiNoLookahead(xs: seq<real>, ys: seq<real>, i: nat, window: nat)
    requires i < |xs| && i < |ys| && xs[..i + 1] == ys[..i + 1]
    ensures RsiAt(xs, window, i) == RsiAt(ys, window, i)
  {
    var dx, dy := Diff(xs), Diff(ys);
    assert forall k :: 0 <= k <= i ==> dx[k] == dy[k];
    assert Gains(dx)[..i + 1] == Gains(dy)[..i + 1];
    assert Losses(dx)[..i + 1] == Losses(dy)[..i + 1];
    TrailingOfPrefix(Gains(dx), Gains(dy), window, i);
    TrailingOfPrefix(Losses(dx), Losses(dy), window, i);
  }

  lemma MacdNoLookahead(xs: seq<real>, ys: seq<real>, i: nat)
    requires i < |xs| && i < |ys| && xs[..i + 1] == ys[..i + 1]
    ensures MacdLineOf(xs, 12, 26)[i] == MacdLineOf(ys, 12, 26)[i]
    ensures MacdSignalOf(xs, 12, 26, 9)[i] == MacdSignalOf(ys, 12, 26, 9)[i]
  {
    EmaPrefixesAgree(xs, ys, i, Alpha(12));
    EmaPrefixesAgree(xs, ys, i, Alpha(26));
    var lx, ly := MacdLineOf(xs, 12, 26), MacdLineOf(ys, 12, 26);
    assert forall k :: 0 <= k <= i ==> lx[k] == ly[k];
    assert lx[..i + 1] == ly[..i + 1];
    EmaPrefixesAgree(lx, ly, i, Alpha(9));
  }

  /** Every indicator value at row `i` depends only on the closes up to row `i`:
      changing later closes leaves it unchanged. */
  lemma NoLookahead(xs: seq<real>, ys: seq<real>, i: nat, span: nat)
    requires i < |xs| && i < |ys| && xs[..i + 1] == ys[..i + 1]
    requires span >= 1
    ensures SmaOf(xs, span)[i] == SmaOf(ys, span)[i]
    ensures EmaOf(xs, Alpha(span))[i] == EmaOf(ys, Alpha(span))[i]
    ensures RsiOf(xs, span)[i] == RsiOf(ys, span)[i]
    ensures MacdLineOf(xs, 12, 26)[i] == MacdLineOf(ys, 12, 26)[i]
    ensures MacdSignalOf(xs, 12, 26, 9)[i] == MacdSignalOf(ys, 12, 26, 9)[i]
  {
    SmaNoLookahead(xs, ys, i, span);
    EmaPrefixesAgree(xs, ys, i, Alpha(span));
    RsiNoLookahead(xs, ys, i, span);
    assert RsiOf(xs, span)[i] == RsiAt(xs, span, i);
    assert RsiOf(ys, span)[i] == RsiAt(ys, span, i);
    MacdNoLookahead(xs, ys, i);
  }

  // ------------------------------------------------- columns on a copy

  /** `calculate_sma`: a copy with column `sma_<span>` added. */
  function CalculateSma(rows: seq<Row>, span: nat): (r: seq<Row>)
    ensures AddsColumn(rows, r, Sma(span), SmaOf(Closes(rows), span))
  {
    WithColumn(rows, Sma(span), SmaOf(Closes(rows), span))
  }

  /** `calculate_ema`: a copy with column `ema_<span>` added, defined on every row. */
  function CalculateEma(rows: seq<Row>, span: nat): (r: seq<Row>)
    requires span >= 1
    ensures AddsColumn(rows, r, Ema(span), Lift(EmaOf(Closes(rows), Alpha(span))))
  {
    WithColumn(rows, Ema(span), Lift(EmaOf(Closes(rows), Alpha(span))))
  }

  /** `calculate_rsi`: a copy with column `rsi_<window>` added. */
  function CalculateRsi(rows: seq<Row>, window: nat): (r: seq<Row>)
    ensures AddsColumn(rows, r, Rsi(window), RsiOf(Closes(rows), window))
  {
    WithColumn(rows, Rsi(window), RsiOf(Closes(rows), window))
  }

  /** The three MACD columns written from a given line and signal; the
      histogram is their difference. */
  function WithMacdColumns(rows: seq<Row>, line: seq<real>, signal: seq<real>): (r: seq<Row>)
    requires |line| == |rows| && |signal| == |rows|
    ensures |r| == |rows|
    ensures forall i :: 0 <= i < |rows| ==> r[i].bar == rows[i].bar
    ensures forall i :: 0 <= i < |rows| ==>
      r[i].extra == rows[i].extra[MacdLine := Some(line[i])][MacdSignal := Some(signal[i])]
                                 [MacdHist := Some(line[i] - signal[i])]
  {
    var hist := seq(|rows|, i requires 0 <= i < |rows| => line[i] - signal[i]);
    var withLine := WithColumn(rows, MacdLine, Lift(line));
    var withSignal := WithColumn(withLine, MacdSignal, Lift(signal));
    WithColumn(withSignal, MacdHist, Lift(hist))
  }

  /** `calculate_macd`: a copy with `macd_line`, `macd_signal` and `macd_hist`
      added; the histogram is the line minus the signal on every row. */
  function CalculateMacd(rows: seq<Row>, spanShort: nat, spanLong: nat, signalSpan: nat): (r: seq<Row>)
    requires spanShort >= 1 && spanLong >= 1 && signalSpan >= 1
    ensures |r| == |rows|
    ensures forall i :: 0 <= i < |rows| ==> r[i].bar == rows[i].bar
    ensures var line := MacdLineOf(Closes(rows), spanShort, spanLong);
            var signal := MacdSignalOf(Closes(rows), spanShort, spanLong, signalSpan);
            forall i :: 0 <= i < |rows| ==>
              r[i].extra == rows[i].extra[MacdLine := Some(line[i])][MacdSignal := Some(signal[i])]
                                         [MacdHist := Some(line[i] - signal[i])]
  {
    WithMacdColumns(rows, MacdLineOf(Closes(rows), spanShort, spanLong),
                    MacdSignalOf(Closes(rows), spanShort, spanLong, signalSpan))
  }

  // ------------------------------------------------------ key indicators

  predicate AllPositive(spans: seq<nat>) {
    forall k :: 0 <= k < |spans| ==> spans[k] >= 1
  }

  function EmaColumns(spans: seq<nat>): set<ColumnName> {
    set k | 0 <= k < |spans| :: Ema(spans[k])
  }

  function SmaColumns(spans: seq<nat>): set<ColumnName> {
    set k | 0 <= k < |spans| :: Sma(spans[k])
  }

  /** `for span in spans: df = calculate_ema(df, span=span)`. */
  function AddEmas(rows: seq<Row>, spans: seq<nat>): (r: seq<Row>)
    requires AllPositive(spans)
    ensures |r| == |rows|
    ensures forall i :: 0 <= i < |r| ==> r[i].bar == rows[i].bar
    decreases |spans|
  {
    if spans == [] then rows else AddEmas(CalculateEma(rows, spans[0]), spans[1..])
  }

  lemma EmaColumnsCons(spans: seq<nat>)
    requires spans != []
    ensures EmaColumns(spans) == {Ema(spans[0])} + EmaColumns(spans[1..])
  {
    assert forall k :: 0 < k < |spans| ==> spans[k] == spans[1..][k - 1];
  }

  lemma SmaColumnsCons(spans: seq<nat>)
    requires spans != []
    ensures SmaColumns(spans) == {Sma(spans[0])} + SmaColumns(spans[1..])
  {
    assert forall k :: 0 < k < |spans| ==> spans[k] == spans[1..][k - 1];
  }

  /** The columns of row `i` after the EMA loop: one per span added. */
  lemma {:induction false} AddEmasKeys(rows: seq<Row>, spans: seq<nat>, i: nat)
    requires AllPositive(spans) && i < |rows|
    ensures AddEmas(rows, spans)[i].extra.Keys == rows[i].extra.Keys + EmaColumns(spans)
    decreases |spans|
  {
    if spans != [] {
      var once := CalculateEma(rows, spans[0]);
      assert once[i].extra.Keys == rows[i].extra.Keys + {Ema(spans[0])};
      EmaColumnsCons(spans);
      AddEmasKeys(once, spans[1..], i);
      assert AddEmas(rows, spans) == AddEmas(once, spans[1..]);
    }
  }

  /** The EMA loop keeps every column it does not write. */
  lemma {:induction false} AddEmasKeep(rows: seq<Row>, spans: seq<nat>, i: nat, c: ColumnName)
    requires AllPositive(spans) && i < |rows| && c in rows[i].extra && c !in EmaColumns(spans)
    ensures c in AddEmas(rows, spans)[i].extra && AddEmas(rows, spans)[i].extra[c] == rows[i].extra[c]
    decreases |spans|
  {
    if spans != [] {
      var once := CalculateEma(rows, spans[0]);
      EmaColumnsCons(spans);
      assert once[i].extra[c] == rows[i].extra[c];
      AddEmasKeep(once, spans[1..], i, c);
      assert AddEmas(rows, spans) == AddEmas(once, spans[1..]);
    }
  }

  /** After the EMA loop, the column of each span holds that span's
      EMA of the original closes. */
  lemma {:induction false} AddEmasValues(rows: seq<Row>, spans: seq<nat>, i: nat)
    requires AllPositive(spans) && i < |rows|
    ensures forall k :: 0 <= k < |spans| ==>
      Ema(spans[k]) in AddEmas(rows, spans)[i].extra &&
      AddEmas(rows, spans)[i].extra[Ema(spans[k])] == Some(EmaOf(Closes(rows), Alpha(spans[k]))[i])
    decreases |spans|
  {
    if spans != [] {
      var once := CalculateEma(rows, spans[0]);
      assert once[i].extra[Ema(spans[0])] == Some(EmaOf(Closes(rows), Alpha(spans[0]))[i]);
      SameBarsSameCloses(once, rows);
      EmaColumnsCons(spans);
      AddEmasValues(once, spans[1..], i);
      var r := AddEmas(once, spans[1..]);
      assert AddEmas(rows, spans) == r;
      forall k | 0 <= k < |spans|
        ensures Ema(spans[k]) in r[i].extra && r[i].extra[Ema(spans[k])] == Some(EmaOf(Closes(rows), Alpha(spans[k]))[i])
      {
        if k > 0 {
          assert spans[k] == spans[1..][k - 1];
        } else if Ema(spans[0]) in EmaColumns(spans[1..]) {
          var j :| 0 <= j < |spans[1..]| && Ema(spans[1..][j]) == Ema(spans[0]);
        } else {
          AddEmasKeep(once, spans[1..], i, Ema(spans[0]));
        }
      }
    }
  }

  /** Row `i` after the EMA loop: one column per span holding the EMA of the
      original closes, every other column kept. */
  lemma AddEmasRow(rows: seq<Row>, spans: seq<nat>, i: nat)
    requires AllPositive(spans) && i < |rows|
    ensures AddEmas(rows, spans)[i].extra.Keys == rows[i].extra.Keys + EmaColumns(spans)
    ensures forall c :: c in rows[i].extra && c !in EmaColumns(spans) ==>
      AddEmas(rows, spans)[i].extra[c] == rows[i].extra[c]
    ensures forall k :: 0 <= k < |spans| ==>
      Ema(spans[k]) in AddEmas(rows, spans)[i].extra &&
      AddEmas(rows, spans)[i].extra[Ema(spans[k])] == Some(EmaOf(Closes(rows), Alpha(spans[k]))[i])
  {
    AddEmasKeys(rows, spans, i);
    AddEmasValues(rows, spans, i);
    forall c | c in rows[i].extra && c !in EmaColumns(spans)
      ensures AddEmas(rows, spans)[i].extra[c] == rows[i].extra[c]
    {
      AddEmasKeep(rows, spans, i, c);
    }
  }

  /** The EMA loop adds one column per span, keeps every other column, and
      each added column holds the EMA of the original closes. */
  lemma AddEmasColumns(rows: seq<Row>, spans: seq<nat>)
    requires AllPositive(spans)
    ensures forall i :: 0 <= i < |rows| ==>
      AddEmas(rows, spans)[i].extra.Keys == rows[i].extra.Keys + EmaColumns(spans)
    ensures forall i, c :: 0 <= i < |rows| && c in rows[i].extra && c !in EmaColumns(spans) ==>
      AddEmas(rows, spans)[i].extra[c] == rows[i].extra[c]
    ensures forall i, k :: 0 <= i < |rows| && 0 <= k < |spans| ==>
      Ema(spans[k]) in AddEmas(rows, spans)[i].extra &&
      AddEmas(rows, spans)[i].extra[Ema(spans[k])] == Some(EmaOf(Closes(rows), Alpha(spans[k]))[i])
  {
    forall i | 0 <= i < |rows|
      ensures AddEmas(rows, spans)[i].extra.Keys == rows[i].extra.Keys + EmaColumns(spans)
      ensures forall c :: c in rows[i].extra && c !in EmaColumns(spans) ==>
        AddEmas(rows, spans)[i].extra[c] == rows[i].extra[c]
      ensures forall k :: 0 <= k < |spans| ==>
        Ema(spans[k]) in AddEmas(rows, spans)[i].extra &&
        AddEmas(rows, spans)[i].extra[Ema(spans[k])] == Some(EmaOf(Closes(rows), Alpha(spans[k]))[i])
    {
      AddEmasRow(rows, spans, i);
    }
  }

  /** `for span in spans: df = calculate_sma(df, span=span)`. */
  function AddSmas(rows: seq<Row>, spans: seq<nat>): (r: seq<Row>)
    ensures |r| == |rows|
    ensures forall i :: 0 <= i < |r| ==> r[i].bar == rows[i].bar
    decreases |spans|
  {
    if spans == [] then rows else AddSmas(CalculateSma(rows, spans[0]), spans[1..])
  }

  /** The columns of row `i` after the SMA loop: one per span added. */
  lemma {:induction false} AddSmasKeys(rows: seq<Row>, spans: seq<nat>, i: nat)
    requires i < |rows|
    ensures AddSmas(rows, spans)[i].extra.Keys == rows[i].extra.Keys + SmaColumns(spans)
    decreases |spans|
  {
    if spans != [] {
      var once := CalculateSma(rows, spans[0]);
      assert once[i].extra.Keys == rows[i].extra.Keys + {Sma(spans[0])};
      SmaColumnsCons(spans);
      AddSmasKeys(once, spans[1..], i);
      assert AddSmas(rows, spans) == AddSmas(once, spans[1..]);
    }
  }

  /** The SMA loop keeps every column it does not write. */
  lemma {:induction false} AddSmasKeep(rows: seq<Row>, spans: seq<nat>, i: nat, c: ColumnName)
    requires i < |rows| && c in rows[i].extra && c !in SmaColumns(spans)
    ensures c in AddSmas(rows, spans)[i].extra && AddSmas(rows, spans)[i].extra[c] == rows[i].extra[c]
    decreases |spans|
  {
    if spans != [] {
      var once := CalculateSma(rows, spans[0]);
      SmaColumnsCons(spans);
      assert once[i].extra[c] == rows[i].extra[c];
      AddSmasKeep(once, spans[1..], i, c);
      assert AddSmas(rows, spans) == AddSmas(once, spans[1..]);
    }
  }

  /** After the SMA loop, the column of each span holds that span's
      SMA of the original closes. */
  lemma {:induction false} AddSmasValues(rows: seq<Row>, spans: seq<nat>, i: nat)
    requires i < |rows|
    ensures forall k :: 0 <= k < |spans| ==>
      Sma(spans[k]) in AddSmas(rows, spans)[i].extra &&
      AddSmas(rows, spans)[i].extra[Sma(spans[k])] == SmaOf(Closes(rows), spans[k])[i]
    decreases |spans|
  {
    if spans != [] {
      var once := CalculateSma(rows, spans[0]);
      assert once[i].extra[Sma(spans[0])] == SmaOf(Closes(rows), spans[0])[i];
      SameBarsSameCloses(once, rows);
      SmaColumnsCons(spans);
      AddSmasValues(once, spans[1..], i);
      var r := AddSmas(once, spans[1..]);
      assert AddSmas(rows, spans) == r;
      forall k | 0 <= k < |spans|
        ensures Sma(spans[k]) in r[i].extra && r[i].extra[Sma(spans[k])] == SmaOf(Closes(rows), spans[k])[i]
      {
        if k > 0 {
          assert spans[k] == spans[1..][k - 1];
        } else if Sma(spans[0]) in SmaColumns(spans[1..]) {
          var j :| 0 <= j < |spans[1..]| && Sma(spans[1..][j]) == Sma(spans[0]);
        } else {
          AddSmasKeep(once, spans[1..], i, Sma(spans[0]));
        }
      }
    }
  }

  /** Row `i` after the SMA loop: one column per span holding the SMA of the
      original closes, every other column kept. */
  lemma AddSmasRow(rows: seq<Row>, spans: seq<nat>, i: nat)
    requires i < |rows|
    ensures AddSmas(rows, spans)[i].extra.Keys == rows[i].extra.Keys + SmaColumns(spans)
    ensures forall c :: c in rows[i].extra && c !in SmaColumns(spans) ==>
      AddSmas(rows, spans)[i].extra[c] == rows[i].extra[c]
    ensures forall k :: 0 <= k < |spans| ==>
      Sma(spans[k]) in AddSmas(rows, spans)[i].extra &&
      AddSmas(rows, spans)[i].extra[Sma(spans[k])] == SmaOf(Closes(rows), spans[k])[i]
  {
    AddSmasKeys(rows, spans, i);
    AddSmasValues(rows, spans, i);
    forall c | c in rows[i].extra && c !in SmaColumns(spans)
      ensures AddSmas(rows, spans)[i].extra[c] == rows[i].extra[c]
    {
      AddSmasKeep(rows, spans, i, c);
    }
  }

  /** The SMA loop adds one column per span, keeps every other column, and
      each added column holds the SMA of the original closes. */
  lemma AddSmasColumns(rows: seq<Row>, spans: seq<nat>)
    ensures forall i :: 0 <= i < |rows| ==>
      AddSmas(rows, spans)[i].extra.Keys == rows[i].extra.Keys + SmaColumns(spans)
    ensures forall i, c :: 0 <= i < |rows| && c in rows[i].extra && c !in SmaColumns(spans) ==>
      AddSmas(rows, spans)[i].extra[c] == rows[i].extra[c]
    ensures forall i, k :: 0 <= i < |rows| && 0 <= k < |spans| ==>
      Sma(spans[k]) in AddSmas(rows, spans)[i].extra &&
      AddSmas(rows, spans)[i].extra[Sma(spans[k])] == SmaOf(Closes(rows), spans[k])[i]
  {
    forall i | 0 <= i < |rows|
      ensures AddSmas(rows, spans)[i].extra.Keys == rows[i].extra.Keys + SmaColumns(spans)
      ensures forall c :: c in rows[i].extra && c !in SmaColumns(spans) ==>
        AddSmas(rows, spans)[i].extra[c] == rows[i].extra[c]
      ensures forall k :: 0 <= k < |spans| ==>
        Sma(spans[k]) in AddSmas(rows, spans)[i].extra &&
        AddSmas(rows, spans)[i].extra[Sma(spans[k])] == SmaOf(Closes(rows), spans[k])[i]
    {
      AddSmasRow(rows, spans, i);
    }
  }

  /** The spans `add_key_indicators` uses for both moving averages. */
  const KeySpans: seq<nat> := [20, 50, 100, 200]

  /** The columns the key-indicator stages add for the given spans. */
  function StageColumns(spans: seq<nat>): set<ColumnName> {
    EmaColumns(spans) + SmaColumns(spans) + {Rsi(14), MacdLine, MacdSignal, MacdHist}
  }

  /** The twelve columns `add_key_indicators` adds. */
  function KeyColumns(): set<ColumnName> {
    StageColumns(KeySpans)
  }

  lemma KeyColumnsListed()
    ensures KeyColumns() == {Ema(20), Ema(50), Ema(100), Ema(200), Sma(20), Sma(50), Sma(100), Sma(200),
                             Rsi(14), MacdLine, MacdSignal, MacdHist}
  {
    assert EmaColumns(KeySpans) == {Ema(20), Ema(50), Ema(100), Ema(200)} by {
      assert KeySpans[0] == 20 && KeySpans[1] == 50 && KeySpans[2] == 100 && KeySpans[3] == 200;
    }
    assert SmaColumns(KeySpans) == {Sma(20), Sma(50), Sma(100), Sma(200)} by {
      assert KeySpans[0] == 20 && KeySpans[1] == 50 && KeySpans[2] == 100 && KeySpans[3] == 200;
    }
  }

  /** The stages of `add_key_indicators` with `spans` for both moving-average
      loops: EMAs, then SMAs, then RSI(14), then MACD(12, 26, 9). */
  function KeyStages(rows: seq<Row>, spans: seq<nat>): (r: seq<Row>)
    requires AllPositive(spans)
    ensures |r| == |rows|
    ensures forall i :: 0 <= i < |r| ==> r[i].bar == rows[i].bar
  {
    CalculateMacd(CalculateRsi(AddSmas(AddEmas(rows, spans), spans), 14), 12, 26, 9)
  }

  /** `add_key_indicators`: the stages over the spans 20/50/100/200. */
  function AddKeyIndicators(rows: seq<Row>): (r: seq<Row>)
    ensures |r| == |rows|
    ensures forall i :: 0 <= i < |r| ==> r[i].bar == rows[i].bar
  {
    KeyStages(rows, KeySpans)
  }

  /** The last two stages add exactly their four columns. */
  lemma LateStagesKeys(q: seq<Row>, i: nat)
    requires i < |q|
    ensures CalculateMacd(CalculateRsi(q, 14), 12, 26, 9)[i].extra.Keys ==
      q[i].extra.Keys + {Rsi(14), MacdLine, MacdSignal, MacdHist}
  {
    var withRsi := CalculateRsi(q, 14);
    assert withRsi[i].extra.Keys == q[i].extra.Keys + {Rsi(14)};
  }

  /** The last two stages keep any column they do not name. */
  lemma LateStagesKeep(q: seq<Row>, i: nat, c: ColumnName)
    requires i < |q| && c in q[i].extra
    requires c !in {Rsi(14), MacdLine, MacdSignal, MacdHist}
    ensures c in CalculateMacd(CalculateRsi(q, 14), 12, 26, 9)[i].extra
    ensures CalculateMacd(CalculateRsi(q, 14), 12, 26, 9)[i].extra[c] == q[i].extra[c]
  {
    var withRsi := CalculateRsi(q, 14);
    RsiStageKeeps(q, 14, i, c);
    MacdStageKeeps(withRsi, 12, 26, 9, i, c);
  }

  lemma RsiStageKeeps(q: seq<Row>, window: nat, i: nat, c: ColumnName)
    requires i < |q| && c in q[i].extra && c != Rsi(window)
    ensures c in CalculateRsi(q, window)[i].extra && CalculateRsi(q, window)[i].extra[c] == q[i].extra[c]
  {
  }

  lemma MacdStageKeeps(q: seq<Row>, spanShort: nat, spanLong: nat, signalSpan: nat, i: nat, c: ColumnName)
    requires spanShort >= 1 && spanLong >= 1 && signalSpan >= 1
    requires i < |q| && c in q[i].extra && c !in {MacdLine, MacdSignal, MacdHist}
    ensures c in CalculateMacd(q, spanShort, spanLong, signalSpan)[i].extra
    ensures CalculateMacd(q, spanShort, spanLong, signalSpan)[i].extra[c] == q[i].extra[c]
  {
  }

  /** Row `i` after all stages carries exactly the stage columns besides its own. */
  lemma KeyStagesKeys(rows: seq<Row>, spans: seq<nat>, i: nat)
    requires AllPositive(spans) && i < |rows|
    ensures KeyStages(rows, spans)[i].extra.Keys == rows[i].extra.Keys + StageColumns(spans)
  {
    var withEmas := AddEmas(rows, spans);
    AddEmasKeys(rows, spans, i);
    var withSmas := AddSmas(withEmas, spans);
    AddSmasKeys(withEmas, spans, i);
    LateStagesKeys(withSmas, i);
    assert withSmas[i].extra.Keys == rows[i].extra.Keys + EmaColumns(spans) + SmaColumns(spans);
  }

  /** The stages keep every column of row `i` they do not write. */
  lemma KeyStagesKeep(rows: seq<Row>, spans: seq<nat>, i: nat, c: ColumnName)
    requires AllPositive(spans) && i < |rows|
    requires c in rows[i].extra && c !in StageColumns(spans)
    ensures c in KeyStages(rows, spans)[i].extra && KeyStages(rows, spans)[i].extra[c] == rows[i].extra[c]
  {
    var withEmas := AddEmas(rows, spans);
    AddEmasKeep(rows, spans, i, c);
    var withSmas := AddSmas(withEmas, spans);
    AddSmasKeep(withEmas, spans, i, c);
    LateStagesKeep(withSmas, i, c);
  }

  /** Row `i` after all stages: exactly the stage columns added, every other
      column as it was. */
  lemma KeyStagesRow(rows: seq<Row>, spans: seq<nat>, i: nat)
    requires AllPositive(spans) && i < |rows|
    ensures KeyStages(rows, spans)[i].extra.Keys == rows[i].extra.Keys + StageColumns(spans)
    ensures forall c :: c in rows[i].extra && c !in StageColumns(spans) ==>
      KeyStages(rows, spans)[i].extra[c] == rows[i].extra[c]
  {
    KeyStagesKeys(rows, spans, i);
    forall c | c in rows[i].extra && c !in StageColumns(spans)
      ensures KeyStages(rows, spans)[i].extra[c] == rows[i].extra[c]
    {
      KeyStagesKeep(rows, spans, i, c);
    }
  }

  /** Row `i` of `add_key_indicators`: the twelve key columns added, every
      other column as it was. */
  lemma KeyIndicatorRow(rows: seq<Row>, i: nat)
    requires i < |rows|
    ensures AddKeyIndicators(rows)[i].extra.Keys == rows[i].extra.Keys + KeyColumns()
  {
    KeyStagesKeys(rows, KeySpans, i);
  }

  /** `add_key_indicators` adds exactly the twelve key columns and keeps
      every other column as it was. */
  lemma KeyIndicatorColumns(rows: seq<Row>)
    ensures forall i :: 0 <= i < |rows| ==>
      AddKeyIndicators(rows)[i].extra.Keys == rows[i].extra.Keys + KeyColumns()
    ensures forall i, c :: 0 <= i < |rows| && c in rows[i].extra && c !in KeyColumns() ==>
      AddKeyIndicators(rows)[i].extra[c] == rows[i].extra[c]
  {
    forall i | 0 <= i < |rows|
      ensures AddKeyIndicators(rows)[i].extra.Keys == rows[i].extra.Keys + KeyColumns()
      ensures forall c :: c in rows[i].extra && c !in KeyColumns() ==>
        AddKeyIndicators(rows)[i].extra[c] == rows[i].extra[c]
    {
      KeyStagesRow(rows, KeySpans, i);
    }
  }

  /** After all stages, each `ema_<span>` holds the EMA of the input closes. */
  lemma KeyStagesEmaValues(rows: seq<Row>, spans: seq<nat>, i: nat)
    requires AllPositive(spans) && i < |rows|
    ensures forall k :: 0 <= k < |spans| ==>
      Ema(spans[k]) in KeyStages(rows, spans)[i].extra &&
      KeyStages(rows, spans)[i].extra[Ema(spans[k])] == Some(EmaOf(Closes(rows), Alpha(spans[k]))[i])
  {
    var withEmas := AddEmas(rows, spans);
    AddEmasRow(rows, spans, i);
    var withSmas := AddSmas(withEmas, spans);
    AddSmasRow(withEmas, spans, i);
    forall k | 0 <= k < |spans|
      ensures Ema(spans[k]) in KeyStages(rows, spans)[i].extra
      ensures KeyStages(rows, spans)[i].extra[Ema(spans[k])] == withEmas[i].extra[Ema(spans[k])]
    {
      var c := Ema(spans[k]);
      assert c !in SmaColumns(spans);
      LateStagesKeep(withSmas, i, c);
    }
  }

  /** After all stages, each `sma_<span>` holds the SMA of the input closes. */
  lemma KeyStagesSmaValues(rows: seq<Row>, spans: seq<nat>, i: nat)
    requires AllPositive(spans) && i < |rows|
    ensures forall k :: 0 <= k < |spans| ==>
      Sma(spans[k]) in KeyStages(rows, spans)[i].extra &&
      KeyStages(rows, spans)[i].extra[Sma(spans[k])] == SmaOf(Closes(rows), spans[k])[i]
  {
    var withEmas := AddEmas(rows, spans);
    SameBarsSameCloses(withEmas, rows);
    var withSmas := AddSmas(withEmas, spans);
    AddSmasRow(withEmas, spans, i);
    forall k | 0 <= k < |spans|
      ensures Sma(spans[k]) in KeyStages(rows, spans)[i].extra
      ensures KeyStages(rows, spans)[i].extra[Sma(spans[k])] == withSmas[i].extra[Sma(spans[k])]
    {
      LateStagesKeep(withSmas, i, Sma(spans[k]));
    }
  }

  /** Each `ema_<span>` of `add_key_indicators` is the EMA of the input closes. */
  lemma KeyEmaValues(rows: seq<Row>, i: nat)
    requires i < |rows|
    ensures forall k :: 0 <= k < |KeySpans| ==>
      Ema(KeySpans[k]) in AddKeyIndicators(rows)[i].extra &&
      AddKeyIndicators(rows)[i].extra[Ema(KeySpans[k])] == Some(EmaOf(Closes(rows), Alpha(KeySpans[k]))[i])
  {
    KeyStagesEmaValues(rows, KeySpans, i);
  }

  /** Each `sma_<span>` of `add_key_indicators` is the SMA of the input closes. */
  lemma KeySmaValues(rows: seq<Row>, i: nat)
    requires i < |rows|
    ensures forall k :: 0 <= k < |KeySpans| ==>
      Sma(KeySpans[k]) in AddKeyIndicators(rows)[i].extra &&
      AddKeyIndicators(rows)[i].extra[Sma(KeySpans[k])] == SmaOf(Closes(rows), KeySpans[k])[i]
  {
    KeyStagesSmaValues(rows, KeySpans, i);
  }

  /** The moving-average stages keep the closes the later stages read. */
  lemma AverageStagesKeepCloses(rows: seq<Row>, spans: seq<nat>)
    requires AllPositive(spans)
    ensures Closes(AddSmas(AddEmas(rows, spans), spans)) == Closes(rows)
  {
    var withEmas := AddEmas(rows, spans);
    SameBarsSameCloses(withEmas, rows);
    SameBarsSameCloses(AddSmas(withEmas, spans), withEmas);
  }

  /** Columns `m` of row `i` hold the MACD line, signal and histogram of `closes`. */
  predicate MacdColumnsAt(m: map<ColumnName, Option<real>>, closes: seq<real>, i: nat)
    requires i < |closes|
  {
    MacdLine in m && MacdSignal in m && MacdHist in m &&
    m[MacdLine] == Some(MacdLineOf(closes, 12, 26)[i]) &&
    m[MacdSignal] == Some(MacdSignalOf(closes, 12, 26, 9)[i]) &&
    m[MacdHist] == Some(MacdLineOf(closes, 12, 26)[i] - MacdSignalOf(closes, 12, 26, 9)[i])
  }

  /** The RSI and MACD stages fill their columns from the closes they are given. */
  lemma LateStagesValues(q: seq<Row>, i: nat)
    requires i < |q|
    ensures Rsi(14) in CalculateMacd(CalculateRsi(q, 14), 12, 26, 9)[i].extra
    ensures CalculateMacd(CalculateRsi(q, 14), 12, 26, 9)[i].extra[Rsi(14)] == RsiOf(Closes(q), 14)[i]
    ensures MacdColumnsAt(CalculateMacd(CalculateRsi(q, 14), 12, 26, 9)[i].extra, Closes(q), i)
  {
    var withRsi := CalculateRsi(q, 14);
    SameBarsSameCloses(withRsi, q);
    assert Rsi(14) in withRsi[i].extra && withRsi[i].extra[Rsi(14)] == RsiOf(Closes(q), 14)[i];
    MacdStageKeeps(withRsi, 12, 26, 9, i, Rsi(14));
  }

  /** After all stages, `rsi_14` and the MACD columns are computed from the input closes. */
  lemma KeyStagesLateValues(rows: seq<Row>, spans: seq<nat>, i: nat)
    requires AllPositive(spans) && i < |rows|
    ensures Rsi(14) in KeyStages(rows, spans)[i].extra &&
      KeyStages(rows, spans)[i].extra[Rsi(14)] == RsiOf(Closes(rows), 14)[i]
    ensures MacdColumnsAt(KeyStages(rows, spans)[i].extra, Closes(rows), i)
  {
    var q := AddSmas(AddEmas(rows, spans), spans);
    AverageStagesKeepCloses(rows, spans);
    LateStagesValues(q, i);
  }

  /** `rsi_14` of `add_key_indicators` is the 14-row RSI of the input closes. */
  lemma KeyRsiValue(rows: seq<Row>, i: nat)
    requires i < |rows|
    ensures Rsi(14) in AddKeyIndicators(rows)[i].extra &&
      AddKeyIndicators(rows)[i].extra[Rsi(14)] == RsiOf(Closes(rows), 14)[i]
  {
    KeyStagesLateValues(rows, KeySpans, i);
  }

  /** The MACD columns of `add_key_indicators` are MACD(12, 26, 9) of the input closes. */
  lemma KeyMacdValues(rows: seq<Row>, i: nat)
    requires i < |rows|
    ensures MacdColumnsAt(AddKeyIndicators(rows)[i].extra, Closes(rows), i)
  {
    KeyStagesLateValues(rows, KeySpans, i);
  }
}
