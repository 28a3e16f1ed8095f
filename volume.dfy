/** Calendar-adjusted volume scaling (`normalize_volume` in
    `tickers/data_processing.py`).

    The rows are sorted by date; each row gets the long-window z-score of its
    volume, divided by how far its volume sits from the mean volume of its
    weekday, multiplied by a calendar scale (OPEX, holiday-adjacent and
    quarter-end days), and clipped to [-5, 5]. The sample standard deviation
    and the set of holiday-adjacent dates are supplied. */
module Volume {
  import opened Wrappers
  import opened Calendar
  import opened Table

  /** Every bar has a non-negative volume. */
  predicate VolumesNonnegative(rows: seq<Row>) {
    forall i :: 0 <= i < |rows| ==> rows[i].bar.volume >= 0.0
  }

  // ------------------------------------------------------------- scale

  /** The multiplicative calendar scale: 1.0, times 0.8 on an OPEX day, times
      1.1 next to a holiday, times 0.9 at a quarter end. */
  function ScaleFactor(opex: bool, holiday: bool, eoq: bool): real {
    1.0 * (if opex then 0.8 else 1.0) * (if holiday then 1.1 else 1.0) * (if eoq then 0.9 else 1.0)
  }

  /** The eight values the scale can take; an unflagged row keeps 1.0 and every
      flag changes it. */
  lemma ScaleFactorValues()
    ensures ScaleFactor(false, false, false) == 1.0
    ensures ScaleFactor(true, false, false) == 0.8
    ensures ScaleFactor(false, true, false) == 1.1
    ensures ScaleFactor(false, false, true) == 0.9
    ensures ScaleFactor(true, true, false) == 0.88
    ensures ScaleFactor(true, false, true) == 0.72
    ensures ScaleFactor(false, true, true) == 0.99
    ensures ScaleFactor(true, true, true) == 0.792
  {
  }

  /** Each flag multiplies the scale by its own factor, whatever the other two
      flags are, so the flags compose independently. */
  lemma ScaleFlagsIndependent(opex: bool, holiday: bool, eoq: bool)
    ensures ScaleFactor(true, holiday, eoq) == 0.8 * ScaleFactor(false, holiday, eoq)
    ensures ScaleFactor(opex, true, eoq) == 1.1 * ScaleFactor(opex, false, eoq)
    ensures ScaleFactor(opex, holiday, true) == 0.9 * ScaleFactor(opex, holiday, false)
    ensures 0.72 <= ScaleFactor(opex, holiday, eoq) <= 1.1
  {
  }

  /** `scale = np.ones(n)` followed by the three masked multiplications. */
  method ComputeScale(opex: seq<bool>, holiday: seq<bool>, eoq: seq<bool>) returns (scale: seq<real>)
    requires |opex| == |holiday| == |eoq|
    ensures |scale| == |opex|
    ensures forall i :: 0 <= i < |scale| ==> scale[i] == ScaleFactor(opex[i], holiday[i], eoq[i])
  {
    var n := |opex|;
    var a := new real[n](_ => 1.0);
    for i := 0 to n
      invariant forall k :: 0 <= k < i ==> a[k] == 1.0 * (if opex[k] then 0.8 else 1.0)
      invariant forall k :: i <= k < n ==> a[k] == 1.0
    {
      if opex[i] {
        a[i] := a[i] * 0.8;
      }
    }
    for i := 0 to n
      invariant forall k :: 0 <= k < i ==>
        a[k] == 1.0 * (if opex[k] then 0.8 else 1.0) * (if holiday[k] then 1.1 else 1.0)
      invariant forall k :: i <= k < n ==> a[k] == 1.0 * (if opex[k] then 0.8 else 1.0)
    {
      if holiday[i] {
        a[i] := a[i] * 1.1;
      }
    }
    for i := 0 to n
      invariant forall k :: 0 <= k < i ==> a[k] == ScaleFactor(opex[k], holiday[k], eoq[k])
      invariant forall k :: i <= k < n ==>
        a[k] == 1.0 * (if opex[k] then 0.8 else 1.0) * (if holiday[k] then 1.1 else 1.0)
    {
      if eoq[i] {
        a[i] := a[i] * 0.9;
      }
    }
    scale := a[..];
  }

  /** The calendar scale of one date, with the holiday-adjacent dates supplied. */
  function DateScale(d: Date, adjacent: set<Date>): real {
    ScaleFactor(IsOpex(d), d in adjacent, IsQuarterEnd(d))
  }

  // ------------------------------------------------------- weekday mean

  /** The `weekday` column of a row: `dt.dayofweek`, Monday = 0. */
  function WeekdayOf(r: Row): int {
    DayOfWeek(r.bar.date)
  }

  /** The volumes of the rows whose group key `day` is `wd`, in row order;
      the weekday mean groups by `WeekdayOf`. */
  function VolumesOn(rows: seq<Row>, day: Row -> int, wd: int): (vs: seq<real>)
    ensures |vs| <= |rows|
  {
    if rows == [] then []
    else
      VolumesOn(rows[..|rows| - 1], day, wd) +
      (if day(rows[|rows| - 1]) == wd then [rows[|rows| - 1].bar.volume] else [])
  }

  lemma {:induction false} VolumesOnHasRow(rows: seq<Row>, day: Row -> int, i: nat)
    requires i < |rows|
    ensures |VolumesOn(rows, day, day(rows[i]))| > 0
  {
    if i < |rows| - 1 {
      VolumesOnHasRow(rows[..|rows| - 1], day, i);
    }
  }

  /** `groupby("weekday")["Volume"].mean()` looked up at row `i`: the mean
      volume over every row that shares row `i`'s weekday. */
  function WeekdayMeanAt(rows: seq<Row>, i: nat): real
    requires i < |rows|
  {
    VolumesOnHasRow(rows, WeekdayOf, i);
    Mean(VolumesOn(rows, WeekdayOf, WeekdayOf(rows[i])))
  }

  lemma {:induction false} VolumesOnNonnegative(rows: seq<Row>, day: Row -> int, wd: int)
    requires VolumesNonnegative(rows)
    ensures AllNonnegative(VolumesOn(rows, day, wd))
  {
    if rows != [] {
      VolumesOnNonnegative(rows[..|rows| - 1], day, wd);
    }
  }

  /** With non-negative volumes the weekday mean is non-negative, so the
      ratio's denominator `mean + 1e-9` is positive. */
  lemma WeekdayMeanNonnegative(rows: seq<Row>, i: nat)
    requires i < |rows| && VolumesNonnegative(rows)
    ensures WeekdayMeanAt(rows, i) >= 0.0
  {
    var vs := VolumesOn(rows, WeekdayOf, WeekdayOf(rows[i]));
    VolumesOnHasRow(rows, WeekdayOf, i);
    VolumesOnNonnegative(rows, WeekdayOf, WeekdayOf(rows[i]));
    MeanNonnegative(vs);
  }

  lemma {:induction false} VolumesOnConstant(rows: seq<Row>, day: Row -> int, wd: int, v: real)
    requires forall k :: 0 <= k < |rows| ==> rows[k].bar.volume == v
    ensures forall k :: 0 <= k < |VolumesOn(rows, day, wd)| ==> VolumesOn(rows, day, wd)[k] == v
  {
    if rows != [] {
      VolumesOnConstant(rows[..|rows| - 1], day, wd, v);
    }
  }

  /** When every row trades the same volume, every weekday mean is that volume. */
  lemma WeekdayMeanOfConstant(rows: seq<Row>, i: nat, v: real)
    requires i < |rows|
    requires forall k :: 0 <= k < |rows| ==> rows[k].bar.volume == v
    ensures WeekdayMeanAt(rows, i) == v
  {
    var vs := VolumesOn(rows, WeekdayOf, WeekdayOf(rows[i]));
    VolumesOnHasRow(rows, WeekdayOf, i);
    VolumesOnConstant(rows, WeekdayOf, WeekdayOf(rows[i]), v);
    MeanOfConstant(vs, v);
  }

  lemma {:induction false} SumConcat(a: seq<real>, b: seq<real>)
    ensures Sum(a + b) == Sum(a) + Sum(b)
    decreases |b|
  {
    if b == [] {
      assert a + b == a;
    } else {
      assert (a + b)[..|a + b| - 1] == a + b[..|b| - 1];
      assert (a + b)[|a + b| - 1] == b[|b| - 1];
      SumConcat(a, b[..|b| - 1]);
    }
  }

  lemma {:induction false} VolumesOnConcat(a: seq<Row>, b: seq<Row>, day: Row -> int, wd: int)
    ensures VolumesOn(a + b, day, wd) == VolumesOn(a, day, wd) + VolumesOn(b, day, wd)
    decreases |b|
  {
    if b == [] {
      assert a + b == a;
    } else {
      assert (a + b)[..|a + b| - 1] == a + b[..|b| - 1];
      assert (a + b)[|a + b| - 1] == b[|b| - 1];
      VolumesOnConcat(a, b[..|b| - 1], day, wd);
    }
  }

  /** Taking row `j` out of `b` takes its volume (if its key is `wd`) out of
      the group's count and sum. */
  lemma VolumesOnRemove(b: seq<Row>, j: nat, day: Row -> int, wd: int)
    requires j < |b|
    ensures var rest := b[..j] + b[j + 1..];
      |VolumesOn(b, day, wd)| == |VolumesOn(rest, day, wd)| + |VolumesOn([b[j]], day, wd)| &&
      Sum(VolumesOn(b, day, wd)) == Sum(VolumesOn(rest, day, wd)) + Sum(VolumesOn([b[j]], day, wd))
  {
    var p, q := b[..j], b[j + 1..];
    assert b == p + [b[j]] + q;
    VolumesOnConcat(p + [b[j]], q, day, wd);
    VolumesOnConcat(p, [b[j]], day, wd);
    VolumesOnConcat(p, q, day, wd);
    var vp, vx, vq := VolumesOn(p, day, wd), VolumesOn([b[j]], day, wd), VolumesOn(q, day, wd);
    SumConcat(vp + vx, vq);
    SumConcat(vp, vx);
    SumConcat(vp, vq);
  }

  lemma MultisetRemoveLast<T>(a: seq<T>, b: seq<T>, j: nat)
    requires multiset(a) == multiset(b) && |a| > 0 && j < |b| && b[j] == a[|a| - 1]
    ensures multiset(a[..|a| - 1]) == multiset(b[..j] + b[j + 1..])
  {
    var x := b[j];
    assert b == b[..j] + [x] + b[j + 1..];
    assert a == a[..|a| - 1] + [x];
    assert multiset(b[..j] + b[j + 1..]) == multiset(b) - multiset{x};
    assert multiset(a[..|a| - 1]) == multiset(a) - multiset{x};
  }

  /** A group's volumes have the same count and sum in any order of the rows. */
  lemma {:induction false} VolumesOnReordered(a: seq<Row>, b: seq<Row>, day: Row -> int, wd: int)
    requires multiset(a) == multiset(b)
    ensures |VolumesOn(a, day, wd)| == |VolumesOn(b, day, wd)|
    ensures Sum(VolumesOn(a, day, wd)) == Sum(VolumesOn(b, day, wd))
    decreases |a|
  {
    if a == [] {
      assert |b| == |multiset(b)| == 0;
    } else {
      var x := a[|a| - 1];
      assert x in multiset(b);
      var j :| 0 <= j < |b| && b[j] == x;
      var init, rest := a[..|a| - 1] + a[|a|..], b[..j] + b[j + 1..];
      assert init == a[..|a| - 1];
      MultisetRemoveLast(a, b, j);
      VolumesOnReordered(init, rest, day, wd);
      VolumesOnRemove(b, j, day, wd);
      VolumesOnRemove(a, |a| - 1, day, wd);
    }
  }

  /** The weekday mean does not depend on the order of the rows, so sorting
      before grouping does not change it. */
  lemma WeekdayMeanReordered(a: seq<Row>, b: seq<Row>, i: nat, j: nat)
    requires multiset(a) == multiset(b) && i < |a| && j < |b|
    requires DayOfWeek(a[i].bar.date) == DayOfWeek(b[j].bar.date)
    ensures WeekdayMeanAt(a, i) == WeekdayMeanAt(b, j)
  {
    VolumesOnReordered(a, b, WeekdayOf, WeekdayOf(a[i]));
  }

  // ----------------------------------------------------------- z-score

  /** `(Volume - long_avg) / (long_std + 1e-9)` at row `i`, both rolling over
      `longWindow` rows with `min_periods = longWindow // 2`. */
  function ZScoreAt(rows: seq<Row>, std: seq<real> -> real, longWindow: nat, i: nat): Option<real>
    requires i < |rows| && StdNonnegative(std)
  {
    var vols := Lift(Volumes(BarsOf(rows)));
    var m := RollingMean(vols, longWindow, longWindow / 2, i);
    var s := RollingStd(vols, std, longWindow, longWindow / 2, i);
    if m.Some? && s.Some? then Some(ZScore(rows[i].bar.volume, m.value, s.value)) else None
  }

  /** The z-score is missing exactly on the first `longWindow // 2 - 1` rows
      (and on row 0, where one value has no sample deviation). */
  lemma ZScoreDefinedness(rows: seq<Row>, std: seq<real> -> real, longWindow: nat, i: nat)
    requires i < |rows| && StdNonnegative(std)
    ensures ZScoreAt(rows, std, longWindow, i).Some? <==>
      longWindow >= 2 && i >= 1 && i + 1 >= longWindow / 2
    ensures longWindow / 2 >= 2 ==> (ZScoreAt(rows, std, longWindow, i).None? <==> i < longWindow / 2 - 1)
  {
    var xs := Volumes(BarsOf(rows));
    RollingMeanOfLift(xs, longWindow, longWindow / 2, i);
    RollingStdOfLift(xs, std, longWindow, longWindow / 2, i);
  }

  // ---------------------------------------------------- normalized volume

  /** `clip(-5, 5)`. */
  function Clip(x: real): (r: real)
    ensures -5.0 <= r <= 5.0
    ensures -5.0 <= x <= 5.0 ==> r == x
    ensures x > 5.0 ==> r == 5.0
    ensures x < -5.0 ==> r == -5.0
  {
    if x < -5.0 then -5.0 else if x > 5.0 then 5.0 else x
  }

  /** `Volume / (weekday mean + 1e-9)`. */
  function WeekdayRatio(rows: seq<Row>, i: nat): (r: real)
    requires i < |rows| && VolumesNonnegative(rows)
    ensures r >= 0.0
  {
    WeekdayMeanNonnegative(rows, i);
    rows[i].bar.volume / (WeekdayMeanAt(rows, i) + Eps)
  }

  /** `volume_zscore / (weekday_ratio + 1e-9) * scale` before clipping. */
  function RawNormalized(z: real, ratio: real, scale: real): real
    requires ratio >= 0.0
  {
    z / (ratio + Eps) * scale
  }

  /** The clipped feature at row `i` of the sorted rows, for a given scale;
      missing where the z-score is. */
  function NormalizedAt(rows: seq<Row>, std: seq<real> -> real, longWindow: nat, i: nat, scale: real): Option<real>
    requires i < |rows| && StdNonnegative(std) && VolumesNonnegative(rows)
  {
    var z := ZScoreAt(rows, std, longWindow, i);
    if z.Some? then Some(Clip(RawNormalized(z.value, WeekdayRatio(rows, i), scale))) else None
  }

  /** Where defined, the feature lies in [-5, 5] and is the unclipped value
      whenever that value is already inside the interval. */
  lemma NormalizedBounds(rows: seq<Row>, std: seq<real> -> real, longWindow: nat, i: nat, scale: real)
    requires i < |rows| && StdNonnegative(std) && VolumesNonnegative(rows)
    ensures NormalizedAt(rows, std, longWindow, i, scale).Some? <==> ZScoreAt(rows, std, longWindow, i).Some?
    ensures NormalizedAt(rows, std, longWindow, i, scale).Some? ==>
      var v := NormalizedAt(rows, std, longWindow, i, scale).value;
      var raw := RawNormalized(ZScoreAt(rows, std, longWindow, i).value, WeekdayRatio(rows, i), scale);
      -5.0 <= v <= 5.0 && (-5.0 <= raw <= 5.0 ==> v == raw)
  {
  }

  /** The intermediate columns `normalize_volume` adds and then drops. */
  const Dropped: set<ColumnName> := {Weekday, VolumeZscore, IsOpexFlag, IsHolidayAdjacentFlag, IsEoqFlag}

  /** The columns of output row `i`: the intermediate ones dropped, the
      weekday mean kept under "volume_weekday_ratio", the feature added. */
  function OutputColumns(rows: seq<Row>, std: seq<real> -> real, longWindow: nat, i: nat, scale: real)
    : map<ColumnName, Option<real>>
    requires i < |rows| && StdNonnegative(std) && VolumesNonnegative(rows)
  {
    (rows[i].extra - Dropped)
      [VolumeWeekdayRatio := Some(WeekdayMeanAt(rows, i))]
      [NormalizedVolume := NormalizedAt(rows, std, longWindow, i, scale)]
  }

  /** `normalize_volume` on rows that are already sorted by date. */
  function NormalizeSorted(rows: seq<Row>, std: seq<real> -> real, adjacent: set<Date>, longWindow: nat): (r: seq<Row>)
    requires StdNonnegative(std) && VolumesNonnegative(rows)
    ensures |r| == |rows|
    ensures forall i :: 0 <= i < |rows| ==> r[i].bar == rows[i].bar
  {
    seq(|rows|, i requires 0 <= i < |rows| =>
      Row(rows[i].bar, OutputColumns(rows, std, longWindow, i, DateScale(rows[i].bar.date, adjacent))))
  }

  /** The columns of one output row, for any scale. */
  lemma OutputColumnsShape(rows: seq<Row>, std: seq<real> -> real, longWindow: nat, i: nat, scale: real)
    requires StdNonnegative(std) && VolumesNonnegative(rows) && i < |rows|
    ensures OutputColumns(rows, std, longWindow, i, scale).Keys ==
      rows[i].extra.Keys - Dropped + {VolumeWeekdayRatio, NormalizedVolume}
    ensures forall c :: c in rows[i].extra && c !in Dropped && c != VolumeWeekdayRatio && c != NormalizedVolume ==>
      OutputColumns(rows, std, longWindow, i, scale)[c] == rows[i].extra[c]
    ensures OutputColumns(rows, std, longWindow, i, scale)[VolumeWeekdayRatio] ==
      Some(WeekdayMeanAt(rows, i))
    ensures OutputColumns(rows, std, longWindow, i, scale)[NormalizedVolume] ==
      NormalizedAt(rows, std, longWindow, i, scale)
  {
  }

  /** The output keeps every column it was given except the five intermediate
      ones, holds the weekday mean under "volume_weekday_ratio", and holds the
      clipped feature, missing exactly where the z-score is. */
  lemma NormalizeColumns(rows: seq<Row>, std: seq<real> -> real, adjacent: set<Date>, longWindow: nat, i: nat)
    requires StdNonnegative(std) && VolumesNonnegative(rows) && i < |rows|
    ensures NormalizeSorted(rows, std, adjacent, longWindow)[i].extra.Keys ==
      rows[i].extra.Keys - Dropped + {VolumeWeekdayRatio, NormalizedVolume}
    ensures forall c :: c in rows[i].extra && c !in Dropped && c != VolumeWeekdayRatio && c != NormalizedVolume ==>
      NormalizeSorted(rows, std, adjacent, longWindow)[i].extra[c] == rows[i].extra[c]
    ensures NormalizeSorted(rows, std, adjacent, longWindow)[i].extra[VolumeWeekdayRatio] ==
      Some(WeekdayMeanAt(rows, i))
    ensures NormalizeSorted(rows, std, adjacent, longWindow)[i].extra[NormalizedVolume] ==
      NormalizedAt(rows, std, longWindow, i, DateScale(rows[i].bar.date, adjacent))
  {
    var scale := DateScale(rows[i].bar.date, adjacent);
    OutputColumnsShape(rows, std, longWindow, i, scale);
    assert NormalizeSorted(rows, std, adjacent, longWindow)[i].extra == OutputColumns(rows, std, longWindow, i, scale);
  }

  /** The feature lies in [-5, 5] wherever it is present. */
  lemma NormalizedInRange(rows: seq<Row>, std: seq<real> -> real, adjacent: set<Date>, longWindow: nat, i: nat)
    requires StdNonnegative(std) && VolumesNonnegative(rows) && i < |rows|
    ensures var v := NormalizeSorted(rows, std, adjacent, longWindow)[i].extra[NormalizedVolume];
      v.Some? ==> -5.0 <= v.value <= 5.0
  {
    NormalizeColumns(rows, std, adjacent, longWindow, i);
    NormalizedBounds(rows, std, longWindow, i, DateScale(rows[i].bar.date, adjacent));
  }

  lemma ReorderingKeepsVolumesNonnegative(a: seq<Row>, b: seq<Row>)
    requires multiset(a) == multiset(b) && VolumesNonnegative(b)
    ensures VolumesNonnegative(a)
  {
    forall i | 0 <= i < |a| ensures a[i].bar.volume >= 0.0 {
      assert a[i] in multiset(b);
    }
  }

  /** Output rows built from a precomputed scale column are the rows of
      `NormalizeSorted` when that column holds each date's calendar scale. */
  lemma AssembledRows(rows: seq<Row>, std: seq<real> -> real, adjacent: set<Date>, longWindow: nat,
                      scale: seq<real>, out: seq<Row>)
    requires StdNonnegative(std) && VolumesNonnegative(rows)
    requires |scale| == |rows| && |out| == |rows|
    requires forall i :: 0 <= i < |rows| ==> scale[i] == DateScale(rows[i].bar.date, adjacent)
    requires forall i :: 0 <= i < |rows| ==> out[i] == Row(rows[i].bar, OutputColumns(rows, std, longWindow, i, scale[i]))
    ensures out == NormalizeSorted(rows, std, adjacent, longWindow)
  {
    var expected := NormalizeSorted(rows, std, adjacent, longWindow);
    forall i | 0 <= i < |rows| ensures out[i] == expected[i] {
      assert expected[i] == Row(rows[i].bar, OutputColumns(rows, std, longWindow, i, DateScale(rows[i].bar.date, adjacent)));
    }
  }

  /** `normalize_volume(df, long_window, short_window)`: a sorted copy with the
      calendar-adjusted feature. `shortWindow` is accepted and never read. The
      sort is not stable, so the result is stated for some sorting of the
      input. */
  method NormalizeVolume(rows: seq<Row>, std: seq<real> -> real, adjacent: set<Date>,
                         longWindow: nat, shortWindow: nat) returns (out: seq<Row>)
    requires StdNonnegative(std) && VolumesNonnegative(rows)
    ensures |out| == |rows|
    ensures exists sorted :: (IsSortingOf(sorted, rows) && VolumesNonnegative(sorted) &&
                              out == NormalizeSorted(sorted, std, adjacent, longWindow))
  {
    var a := new Row[|rows|](i requires 0 <= i < |rows| => rows[i]);
    assert a[..] == rows;
    SortByDate(a);
    var sorted := a[..];
    ReorderingKeepsVolumesNonnegative(sorted, rows);
    var n := |sorted|;
    var opex := seq(n, i requires 0 <= i < n => IsOpex(sorted[i].bar.date));
    var holiday := seq(n, i requires 0 <= i < n => sorted[i].bar.date in adjacent);
    var eoq := seq(n, i requires 0 <= i < n => IsQuarterEnd(sorted[i].bar.date));
    var scale := ComputeScale(opex, holiday, eoq);
    out := seq(n, i requires 0 <= i < n => Row(sorted[i].bar, OutputColumns(sorted, std, longWindow, i, scale[i])));
    AssembledRows(sorted, std, adjacent, longWindow, scale, out);
  }
}
