/**
 * The pandas vocabulary the three core files share: a price bar, the
 * names of the derived columns, a row (a bar plus its derived columns),
 * sums and means, the trailing rolling mean with `min_periods`, and the
 * in-place sort by date that `sort_values("Date")` performs.
 */
module Table {
  import opened Wrappers
  import opened Calendar

  /** One daily OHLCV bar. */
  datatype Bar = Bar(date: Date, open: real, high: real, low: real, close: real, volume: real)

  /** The derived columns; `Ema(20)` is the column "ema_20", `Rsi(14)` is "rsi_14". */
  datatype ColumnName =
    | Ema(span: nat) | Sma(span: nat) | Rsi(window: nat)
    | MacdLine | MacdSignal | MacdHist
    | Weekday | VolumeZscore | VolumeWeekdayRatio
    | IsOpexFlag | IsHolidayAdjacentFlag | IsEoqFlag
    | NormalizedVolume

  /** A table row: the bar and the derived columns it carries (`None` is NaN). */
  datatype Row = Row(bar: Bar, extra: map<ColumnName, Option<real>>)

  /** The small additive constant the source puts in every denominator. */
  const Eps: real := 0.000000001

  function Closes(rows: seq<Row>): (xs: seq<real>)
    ensures |xs| == |rows| && forall i :: 0 <= i < |rows| ==> xs[i] == rows[i].bar.close
  {
    seq(|rows|, i requires 0 <= i < |rows| => rows[i].bar.close)
  }

  function BarsOf(rows: seq<Row>): (bars: seq<Bar>)
    ensures |bars| == |rows| && forall i :: 0 <= i < |rows| ==> bars[i] == rows[i].bar
  {
    seq(|rows|, i requires 0 <= i < |rows| => rows[i].bar)
  }

  function Volumes(bars: seq<Bar>): (xs: seq<real>)
    ensures |xs| == |bars| && forall i :: 0 <= i < |bars| ==> xs[i] == bars[i].volume
  {
    seq(|bars|, i requires 0 <= i < |bars| => bars[i].volume)
  }

  /** `after` is a copy of `before` with column `name` set to `col`: same row
      count, same bars, every other column untouched. */
  predicate AddsColumn(before: seq<Row>, after: seq<Row>, name: ColumnName, col: seq<Option<real>>) {
    |after| == |before| && |col| == |before| &&
    forall i :: 0 <= i < |before| ==>
      after[i].bar == before[i].bar && after[i].extra == before[i].extra[name := col[i]]
  }

  /** `df[name] = col` on a copy. */
  function WithColumn(rows: seq<Row>, name: ColumnName, col: seq<Option<real>>): (r: seq<Row>)
    requires |col| == |rows|
    ensures AddsColumn(rows, r, name, col)
  {
    seq(|rows|, i requires 0 <= i < |rows| => Row(rows[i].bar, rows[i].extra[name := col[i]]))
  }

  lemma SameBarsSameCloses(a: seq<Row>, b: seq<Row>)
    requires |a| == |b| && forall i :: 0 <= i < |a| ==> a[i].bar == b[i].bar
    ensures Closes(a) == Closes(b)
  {
  }

  // ---------------------------------------------------------------- means

  function Sum(xs: seq<real>): real
  {
    if xs == [] then 0.0 else Sum(xs[..|xs| - 1]) + xs[|xs| - 1]
  }

  function Mean(xs: seq<real>): real
    requires |xs| > 0
  {
    Sum(xs) / (|xs| as real)
  }

  predicate AllNonnegative(xs: seq<real>) {
    forall i :: 0 <= i < |xs| ==> xs[i] >= 0.0
  }

  lemma {:induction false} SumNonnegative(xs: seq<real>)
    requires AllNonnegative(xs)
    ensures Sum(xs) >= 0.0
  {
    if xs != [] {
      SumNonnegative(xs[..|xs| - 1]);
    }
  }

  lemma MeanNonnegative(xs: seq<real>)
    requires |xs| > 0 && AllNonnegative(xs)
    ensures Mean(xs) >= 0.0
  {
    SumNonnegative(xs);
  }

  lemma {:induction false} SumOfZeros(xs: seq<real>)
    requires forall i :: 0 <= i < |xs| ==> xs[i] == 0.0
    ensures Sum(xs) == 0.0
  {
    if xs != [] {
      SumOfZeros(xs[..|xs| - 1]);
    }
  }

  lemma {:induction false} SumOfConstant(xs: seq<real>, v: real)
    requires forall i :: 0 <= i < |xs| ==> xs[i] == v
    ensures Sum(xs) == (|xs| as real) * v
  {
    if xs != [] {
      SumOfConstant(xs[..|xs| - 1], v);
    }
  }

  lemma MeanOfConstant(xs: seq<real>, v: real)
    requires |xs| > 0 && forall i :: 0 <= i < |xs| ==> xs[i] == v
    ensures Mean(xs) == v
  {
    SumOfConstant(xs, v);
    var n := |xs| as real;
    assert Sum(xs) == n * v;
    assert n * v / n == v;
  }

  // ------------------------------------------------------ rolling windows

  /** First index of the trailing window of length `window` that ends at row `i`. */
  function WindowStart(window: nat, i: nat): nat {
    if i + 1 >= window then i + 1 - window else 0
  }

  /** The rows a trailing (non-centred) window of length `window` sees at row `i`. */
  function Trailing<T>(xs: seq<T>, window: nat, i: nat): (w: seq<T>)
    requires i < |xs|
    ensures |w| == if i + 1 >= window then window else i + 1
  {
    xs[WindowStart(window, i)..i + 1]
  }

  /** The observed (non-missing) values, in order. */
  function Present(xs: seq<Option<real>>): (obs: seq<real>)
    ensures |obs| <= |xs|
  {
    if xs == [] then []
    else Present(xs[..|xs| - 1]) + (if xs[|xs| - 1].Some? then [xs[|xs| - 1].value] else [])
  }

  function Lift(xs: seq<real>): (r: seq<Option<real>>)
    ensures |r| == |xs| && forall i :: 0 <= i < |xs| ==> r[i] == Some(xs[i])
  {
    seq(|xs|, i requires 0 <= i < |xs| => Some(xs[i]))
  }

  lemma {:induction false} PresentOfLift(xs: seq<real>)
    ensures Present(Lift(xs)) == xs
  {
    if xs != [] {
      assert Lift(xs)[..|xs| - 1] == Lift(xs[..|xs| - 1]);
      PresentOfLift(xs[..|xs| - 1]);
    }
  }

  lemma {:induction false} PresentKeepsNonnegative(xs: seq<Option<real>>)
    requires forall i :: 0 <= i < |xs| && xs[i].Some? ==> xs[i].value >= 0.0
    ensures AllNonnegative(Present(xs))
  {
    if xs != [] {
      PresentKeepsNonnegative(xs[..|xs| - 1]);
    }
  }

  /** `Series.rolling(window, min_periods).mean()` at row `i`: the mean of the
      observed values in the trailing window, missing when fewer than
      `minPeriods` (or no) values were observed. */
  function RollingMean(xs: seq<Option<real>>, window: nat, minPeriods: nat, i: nat): Option<real>
    requires i < |xs|
  {
    var obs := Present(Trailing(xs, window, i));
    if |obs| > 0 && |obs| >= minPeriods then Some(Mean(obs)) else None
  }

  /** Over a column without missing values the rolling mean is defined exactly
      from the row where the window first holds `minPeriods` values. */
  lemma RollingMeanOfLift(xs: seq<real>, window: nat, minPeriods: nat, i: nat)
    requires i < |xs|
    ensures Present(Trailing(Lift(xs), window, i)) == Trailing(xs, window, i)
    ensures RollingMean(Lift(xs), window, minPeriods, i).Some? <==>
      window > 0 && i + 1 >= minPeriods && window >= minPeriods
    ensures RollingMean(Lift(xs), window, minPeriods, i).Some? ==>
      RollingMean(Lift(xs), window, minPeriods, i).value == Mean(Trailing(xs, window, i))
  {
    assert Trailing(Lift(xs), window, i) == Lift(Trailing(xs, window, i));
    PresentOfLift(Trailing(xs, window, i));
  }

  /** `(x - mean) / (spread + 1e-9)`, the z-score with the `1e-9` guard: positive
      exactly when `x` is above the mean, and 0 at the mean. */
  function ZScore(x: real, mean: real, spread: real): (z: real)
    requires spread >= 0.0
    ensures x == mean ==> z == 0.0
    ensures x > mean <==> z > 0.0
  {
    (x - mean) / (spread + Eps)
  }

  /** The supplied sample standard deviation is never negative. */
  ghost predicate StdNonnegative(std: seq<real> -> real) {
    forall xs :: std(xs) >= 0.0
  }

  /** `Series.rolling(window, min_periods).std()` at row `i`, with the sample
      standard deviation (`ddof=1`) supplied as `std`: missing when fewer than
      two, or fewer than `minPeriods`, values were observed. */
  function RollingStd(xs: seq<Option<real>>, std: seq<real> -> real, window: nat, minPeriods: nat, i: nat): Option<real>
    requires i < |xs|
  {
    var obs := Present(Trailing(xs, window, i));
    if |obs| >= 2 && |obs| >= minPeriods then Some(std(obs)) else None
  }

  /** Over a column without missing values the rolling standard deviation is
      defined exactly from the row where the window holds two values and
      `minPeriods` values. */
  lemma RollingStdOfLift(xs: seq<real>, std: seq<real> -> real, window: nat, minPeriods: nat, i: nat)
    requires i < |xs|
    ensures RollingStd(Lift(xs), std, window, minPeriods, i).Some? <==>
      window >= 2 && i >= 1 && i + 1 >= minPeriods && window >= minPeriods
    ensures RollingStd(Lift(xs), std, window, minPeriods, i).Some? ==>
      RollingStd(Lift(xs), std, window, minPeriods, i).value == std(Trailing(xs, window, i))
  {
    RollingMeanOfLift(xs, window, minPeriods, i);
  }

  lemma TrailingOfPrefix<T>(xs: seq<T>, ys: seq<T>, window: nat, i: nat)
    requires i < |xs| && i < |ys| && xs[..i + 1] == ys[..i + 1]
    ensures Trailing(xs, window, i) == Trailing(ys, window, i)
  {
    assert Trailing(xs, window, i) == xs[..i + 1][WindowStart(window, i)..];
    assert Trailing(ys, window, i) == ys[..i + 1][WindowStart(window, i)..];
  }

  /** A rolling statistic at row `i` reads nothing after row `i`. */
  lemma RollingNoLookahead(xs: seq<Option<real>>, ys: seq<Option<real>>, std: seq<real> -> real,
                           window: nat, minPeriods: nat, i: nat)
    requires i < |xs| && i < |ys| && xs[..i + 1] == ys[..i + 1]
    ensures RollingMean(xs, window, minPeriods, i) == RollingMean(ys, window, minPeriods, i)
    ensures RollingStd(xs, std, window, minPeriods, i) == RollingStd(ys, std, window, minPeriods, i)
  {
    TrailingOfPrefix(xs, ys, window, i);
  }

  // -------------------------------------------------------- sort by date

  /** The sort key: a row's date as a day number. */
  function Key(r: Row): int {
    DayNumber(r.bar.date)
  }

  /** Ascending by date (ties in any order). */
  predicate SortedByDate(rows: seq<Row>) {
    SortedBy(rows, Key)
  }

  /** Strictly ascending by date: sorted, and no date twice. */
  predicate StrictlyAscending(rows: seq<Row>) {
    forall i, j :: 0 <= i < j < |rows| ==> Before(rows[i].bar.date, rows[j].bar.date)
  }

  /** `sorted` is what `sort_values("Date")` may return for `rows`. */
  predicate IsSortingOf(sorted: seq<Row>, rows: seq<Row>) {
    |sorted| == |rows| && SortedByDate(sorted) && multiset(sorted) == multiset(rows)
  }

  /** Ascending by `key` (ties in any order). */
  predicate SortedBy<T>(xs: seq<T>, key: T -> int) {
    forall i, j :: 0 <= i < j < |xs| ==> key(xs[i]) <= key(xs[j])
  }

  /** Exchanges two adjacent elements; the contents stay a permutation. */
  method SwapAdjacent<T>(a: array<T>, j: int)
    requires 0 < j < a.Length
    modifies a
    ensures a[..] == old(a[..])[j - 1 := old(a[j])][j := old(a[j - 1])]
    ensures multiset(a[..]) == multiset(old(a[..]))
  {
    a[j - 1], a[j] := a[j], a[j - 1];
  }

  /** `s[..i + 1]` is in key order apart from the element at `j`. */
  predicate SortedExcept<T>(s: seq<T>, i: int, j: int, key: T -> int)
    requires i < |s|
  {
    forall p, q :: 0 <= p < q <= i && p != j && q != j ==> key(s[p]) <= key(s[q])
  }

  /** The element at `j` has a key no larger than any after it up to `i`. */
  predicate AtMostFollowing<T>(s: seq<T>, i: int, j: int, key: T -> int)
    requires 0 <= j <= i < |s|
  {
    forall q :: j < q <= i ==> key(s[j]) <= key(s[q])
  }

  /** Swapping the element at `j` with a larger predecessor keeps the
      insertion invariant, one position further left. */
  lemma InsertStep<T>(s: seq<T>, i: int, j: int, key: T -> int)
    requires 0 < j <= i < |s| && key(s[j]) < key(s[j - 1])
    requires SortedExcept(s, i, j, key) && AtMostFollowing(s, i, j, key)
    ensures SortedExcept(s[j - 1 := s[j]][j := s[j - 1]], i, j - 1, key)
    ensures AtMostFollowing(s[j - 1 := s[j]][j := s[j - 1]], i, j - 1, key)
  {
  }

  /** Once the element at `j` is not below its predecessor, the prefix is sorted. */
  lemma InsertDone<T>(s: seq<T>, i: int, j: int, key: T -> int)
    requires 0 <= j <= i < |s| && (j == 0 || key(s[j - 1]) <= key(s[j]))
    requires SortedExcept(s, i, j, key) && AtMostFollowing(s, i, j, key)
    ensures SortedBy(s[..i + 1], key)
  {
  }

  /** Moves `a[i]` left past every larger key, so that `a[..i + 1]` is sorted. */
  method InsertAt<T>(a: array<T>, i: int, key: T -> int)
    requires 0 <= i < a.Length
    requires SortedBy(a[..i], key)
    modifies a
    ensures SortedBy(a[..i + 1], key)
    ensures multiset(a[..]) == multiset(old(a[..]))
    ensures a[i + 1..] == old(a[i + 1..])
  {
    var j := i;
    assert SortedExcept(a[..], i, j, key) by {
      assert forall p :: 0 <= p < i ==> a[..i][p] == a[p];
    }
    while j > 0 && key(a[j]) < key(a[j - 1])
      invariant 0 <= j <= i
      invariant SortedExcept(a[..], i, j, key) && AtMostFollowing(a[..], i, j, key)
      invariant multiset(a[..]) == multiset(old(a[..]))
      invariant a[i + 1..] == old(a[i + 1..])
    {
      InsertStep(a[..], i, j, key);
      SwapAdjacent(a, j);
      j := j - 1;
    }
    InsertDone(a[..], i, j, key);
  }

  /** In-place insertion sort of `a` by an integer key. */
  method SortBy<T>(a: array<T>, key: T -> int)
    modifies a
    ensures SortedBy(a[..], key)
    ensures multiset(a[..]) == multiset(old(a[..]))
  {
    var i := 0;
    while i < a.Length
      invariant 0 <= i <= a.Length
      invariant SortedBy(a[..i], key)
      invariant multiset(a[..]) == multiset(old(a[..]))
    {
      InsertAt(a, i, key);
      i := i + 1;
    }
    assert a[..a.Length] == a[..];
  }

  /** `sort_values("Date", inplace=True)`; pandas' default quicksort is not
      stable, so rows sharing a date may come out in any order. */
  method SortByDate(a: array<Row>)
    modifies a
    ensures SortedByDate(a[..])
    ensures multiset(a[..]) == multiset(old(a[..]))
  {
    SortBy(a, Key);
  }
}
