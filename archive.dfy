/** The incremental archive update (`update_ticker_data` and
    `fetch_new_data` in `tickers/data_processing.py`).

    The archive file, the clock and the download are outside the model: the
    last saved date, today's date, the archived rows and the download (bars
    from a start date on) are parameters, and whether the merged table is
    written back is an output. */
module Archive {
  import opened Wrappers
  import opened Calendar
  import opened Table
  import opened Indicators

  /** The start date of a first download, "1900-01-01". */
  const ColdStart: Date := Civil(1900, 1, 1)

  /** The downloaded bars as rows with no derived columns yet. */
  function PlainRows(bars: seq<Bar>): (rows: seq<Row>)
    ensures |rows| == |bars| && forall i :: 0 <= i < |bars| ==> rows[i] == Row(bars[i], map[])
  {
    seq(|bars|, i requires 0 <= i < |bars| => Row(bars[i], map[]))
  }

  /** `fetch_new_data`: the downloaded bars with the key indicators computed
      over the downloaded slice alone; empty when the download is. */
  function FetchNewData(download: Date -> seq<Bar>, start: Date): (r: seq<Row>)
    ensures |r| == |download(start)|
    ensures forall i :: 0 <= i < |r| ==> r[i].bar == download(start)[i]
  {
    var bars := download(start);
    if bars == [] then [] else AddKeyIndicators(PlainRows(bars))
  }

  /** A fetched row carries exactly the twelve key columns. */
  lemma FetchedRowKeys(bars: seq<Bar>, i: nat)
    requires i < |bars|
    ensures AddKeyIndicators(PlainRows(bars))[i].extra.Keys == KeyColumns()
  {
    var plain := PlainRows(bars);
    assert plain[i].extra.Keys == {};
    KeyIndicatorRow(plain, i);
  }

  /** The RSI of a fetched row is computed from the closes of the fetched
      slice alone, not from the merged archive. */
  lemma FetchedRowRsi(bars: seq<Bar>, i: nat)
    requires i < |bars|
    ensures Rsi(14) in AddKeyIndicators(PlainRows(bars))[i].extra
    ensures AddKeyIndicators(PlainRows(bars))[i].extra[Rsi(14)] == RsiOf(Closes(PlainRows(bars)), 14)[i]
  {
    KeyRsiValue(PlainRows(bars), i);
  }

  // --------------------------------------------------- first row per date

  /** The dates present in `rows`. */
  function DatesOf(rows: seq<Row>): set<Date> {
    set i | 0 <= i < |rows| :: rows[i].bar.date
  }

  /** `drop_duplicates(subset="Date")`: the first row of every date, in order. */
  function FirstByDate(rows: seq<Row>): (kept: seq<Row>)
    ensures |kept| <= |rows|
  {
    if rows == [] then []
    else
      var prefix := rows[..|rows| - 1];
      var last := rows[|rows| - 1];
      if last.bar.date in DatesOf(prefix) then FirstByDate(prefix) else FirstByDate(prefix) + [last]
  }

  /** The first row of `rows` dated `d`, if any. */
  function FirstWith(rows: seq<Row>, d: Date): (r: Option<Row>)
    ensures r.Some? <==> d in DatesOf(rows)
    ensures r.Some? ==> r.value in rows && r.value.bar.date == d
  {
    if rows == [] then None
    else if rows[0].bar.date == d then Some(rows[0])
    else
      var r := FirstWith(rows[1..], d);
      assert DatesOf(rows) == {rows[0].bar.date} + DatesOf(rows[1..]) by {
        forall e | e in DatesOf(rows) ensures e in {rows[0].bar.date} + DatesOf(rows[1..]) {
          var i :| 0 <= i < |rows| && rows[i].bar.date == e;
          if i > 0 { assert rows[1..][i - 1] == rows[i]; }
        }
      }
      r
  }

  /** No two rows share a date. */
  predicate UniqueDates(rows: seq<Row>) {
    forall i, j :: 0 <= i < j < |rows| ==> rows[i].bar.date != rows[j].bar.date
  }

  lemma DatesOfSnoc(rows: seq<Row>, r: Row)
    ensures DatesOf(rows + [r]) == DatesOf(rows) + {r.bar.date}
  {
    var s := rows + [r];
    forall e | e in DatesOf(s) ensures e in DatesOf(rows) + {r.bar.date} {
      var i :| 0 <= i < |s| && s[i].bar.date == e;
      if i < |rows| { assert s[i] == rows[i]; }
    }
    forall e | e in DatesOf(rows) ensures e in DatesOf(s) {
      var i :| 0 <= i < |rows| && rows[i].bar.date == e;
      assert s[i] == rows[i];
    }
    assert s[|rows|] == r;
  }

  /** Deduplication keeps every date once and loses none. */
  lemma {:induction false} FirstByDateDates(rows: seq<Row>)
    ensures UniqueDates(FirstByDate(rows))
    ensures DatesOf(FirstByDate(rows)) == DatesOf(rows)
  {
    if rows != [] {
      var prefix := rows[..|rows| - 1];
      var last := rows[|rows| - 1];
      assert rows == prefix + [last];
      FirstByDateDates(prefix);
      DatesOfSnoc(prefix, last);
      if last.bar.date !in DatesOf(prefix) {
        DatesOfSnoc(FirstByDate(prefix), last);
        var kept := FirstByDate(rows);
        forall i, j | 0 <= i < j < |kept| ensures kept[i].bar.date != kept[j].bar.date {
          if j == |kept| - 1 {
            assert kept[i] == FirstByDate(prefix)[i];
            assert kept[i].bar.date in DatesOf(FirstByDate(prefix));
          } else {
            assert kept[i] == FirstByDate(prefix)[i] && kept[j] == FirstByDate(prefix)[j];
          }
        }
      }
    }
  }

  /** `sub` is `xs` with some elements deleted, the rest in their order. */
  predicate IsSubsequence<T(==)>(sub: seq<T>, xs: seq<T>)
    decreases |xs|
  {
    if xs == [] then sub == []
    else
      IsSubsequence(sub, xs[..|xs| - 1]) ||
      (sub != [] && sub[|sub| - 1] == xs[|xs| - 1] && IsSubsequence(sub[..|sub| - 1], xs[..|xs| - 1]))
  }

  /** Deduplication only deletes rows: the kept rows keep their original order. */
  lemma {:induction false} FirstByDateInOrder(rows: seq<Row>)
    ensures IsSubsequence(FirstByDate(rows), rows)
  {
    if rows != [] {
      var prefix := rows[..|rows| - 1];
      var last := rows[|rows| - 1];
      FirstByDateInOrder(prefix);
      if last.bar.date !in DatesOf(prefix) {
        var kept := FirstByDate(rows);
        assert kept[..|kept| - 1] == FirstByDate(prefix);
      }
    }
  }

  lemma FirstWithSnoc(rows: seq<Row>, r: Row, d: Date)
    ensures FirstWith(rows + [r], d) == if d in DatesOf(rows) then FirstWith(rows, d) else
      (if r.bar.date == d then Some(r) else None)
    decreases |rows|
  {
    if rows != [] {
      assert (rows + [r])[1..] == rows[1..] + [r];
      FirstWithSnoc(rows[1..], r, d);
    } else {
      assert DatesOf(rows) == {};
    }
  }

  /** Every kept row is the first row of its date. */
  lemma {:induction false} FirstByDateKeepsFirst(rows: seq<Row>)
    ensures forall k :: 0 <= k < |FirstByDate(rows)| ==>
      FirstWith(rows, FirstByDate(rows)[k].bar.date) == Some(FirstByDate(rows)[k])
  {
    if rows != [] {
      var prefix := rows[..|rows| - 1];
      var last := rows[|rows| - 1];
      assert rows == prefix + [last];
      FirstByDateKeepsFirst(prefix);
      FirstByDateDates(prefix);
      var kept := FirstByDate(rows);
      forall k | 0 <= k < |kept|
        ensures FirstWith(rows, kept[k].bar.date) == Some(kept[k])
      {
        FirstWithSnoc(prefix, last, kept[k].bar.date);
        if k < |FirstByDate(prefix)| {
          assert kept[k] == FirstByDate(prefix)[k];
          assert kept[k].bar.date in DatesOf(FirstByDate(prefix));
        }
      }
    }
  }

  /** The first row of a date in `existing + fetched` is the archived one when
      the archive has that date, and the fetched one otherwise. */
  lemma {:induction false} FirstWithConcat(existing: seq<Row>, fetched: seq<Row>, d: Date)
    ensures FirstWith(existing + fetched, d) ==
      if d in DatesOf(existing) then FirstWith(existing, d) else FirstWith(fetched, d)
    decreases |existing|
  {
    if existing == [] {
      assert existing + fetched == fetched;
      assert DatesOf(existing) == {};
    } else {
      assert (existing + fetched)[1..] == existing[1..] + fetched;
      FirstWithConcat(existing[1..], fetched, d);
      if existing[0].bar.date != d {
        assert DatesOf(existing) == {existing[0].bar.date} + DatesOf(existing[1..]) by {
          forall e | e in DatesOf(existing) ensures e in {existing[0].bar.date} + DatesOf(existing[1..]) {
            var i :| 0 <= i < |existing| && existing[i].bar.date == e;
            if i > 0 { assert existing[1..][i - 1] == existing[i]; }
          }
          forall e | e in DatesOf(existing[1..]) ensures e in DatesOf(existing) {
            var i :| 0 <= i < |existing[1..]| && existing[1..][i].bar.date == e;
            assert existing[i + 1] == existing[1..][i];
          }
        }
      }
    }
  }

  /** The merge of the archive with a fetched slice: every row of the result
      is the archived row of its date when the archive has the date, and the
      first fetched row of the date otherwise. */
  lemma MergeProvenance(existing: seq<Row>, fetched: seq<Row>, k: nat)
    requires k < |FirstByDate(existing + fetched)|
    ensures var r := FirstByDate(existing + fetched)[k];
      (r.bar.date in DatesOf(existing) ==> FirstWith(existing, r.bar.date) == Some(r)) &&
      (r.bar.date !in DatesOf(existing) ==> FirstWith(fetched, r.bar.date) == Some(r))
  {
    FirstByDateKeepsFirst(existing + fetched);
    FirstWithConcat(existing, fetched, FirstByDate(existing + fetched)[k].bar.date);
  }

  lemma DatesOfConcat(a: seq<Row>, b: seq<Row>)
    ensures DatesOf(a + b) == DatesOf(a) + DatesOf(b)
  {
    var s := a + b;
    forall e | e in DatesOf(s) ensures e in DatesOf(a) + DatesOf(b) {
      var i :| 0 <= i < |s| && s[i].bar.date == e;
      if i < |a| { assert s[i] == a[i]; } else { assert s[i] == b[i - |a|]; }
    }
    forall e | e in DatesOf(a) ensures e in DatesOf(s) {
      var i :| 0 <= i < |a| && a[i].bar.date == e;
      assert s[i] == a[i];
    }
    forall e | e in DatesOf(b) ensures e in DatesOf(s) {
      var i :| 0 <= i < |b| && b[i].bar.date == e;
      assert s[|a| + i] == b[i];
    }
  }

  // ------------------------------------------------------ dedup and sort

  /** `combined.drop_duplicates(subset="Date", inplace=True)`, as a pass that
      remembers the dates it has seen. */
  method DropDuplicateDates(rows: seq<Row>) returns (kept: seq<Row>)
    ensures kept == FirstByDate(rows)
  {
    kept := [];
    var seen: set<Date> := {};
    for i := 0 to |rows|
      invariant kept == FirstByDate(rows[..i])
      invariant seen == DatesOf(rows[..i])
    {
      assert rows[..i + 1] == rows[..i] + [rows[i]];
      assert rows[..i + 1][..i] == rows[..i];
      DatesOfSnoc(rows[..i], rows[i]);
      if rows[i].bar.date !in seen {
        kept := kept + [rows[i]];
        seen := seen + {rows[i].bar.date};
      }
    }
    assert rows[..|rows|] == rows;
  }

  /** `combined.sort_values("Date", inplace=True)` on a copy held in an array. */
  method SortRows(rows: seq<Row>) returns (sorted: seq<Row>)
    ensures IsSortingOf(sorted, rows)
  {
    var a := new Row[|rows|](i requires 0 <= i < |rows| => rows[i]);
    assert a[..] == rows;
    SortByDate(a);
    sorted := a[..];
  }

  /** Distinct dates have distinct day numbers. */
  lemma DistinctDatesDistinctDays(a: Date, b: Date)
    requires a != b
    ensures DayNumber(a) != DayNumber(b)
  {
    if DayNumber(a) == DayNumber(b) {
      DayNumberInjective(a, b);
    }
  }

  /** A row that occurs twice in `s` sits at two distinct indices. */
  lemma TwoIndices(s: seq<Row>, x: Row)
    requires multiset(s)[x] >= 2
    ensures exists p, q :: 0 <= p < q < |s| && s[p] == x && s[q] == x
  {
    assert x in multiset(s);
    var p :| 0 <= p < |s| && s[p] == x;
    assert s == s[..p] + [x] + s[p + 1..];
    assert multiset(s) == multiset(s[..p]) + multiset{x} + multiset(s[p + 1..]);
    if x in multiset(s[..p]) {
      var q :| 0 <= q < p && s[..p][q] == x;
      assert s[q] == x;
    } else {
      assert x in multiset(s[p + 1..]);
      var q :| 0 <= q < |s| - p - 1 && s[p + 1..][q] == x;
      assert s[p + 1 + q] == x;
    }
  }

  /** Two rows of `a` with one date give two rows of any reordering of `a`
      with one date. */
  lemma DuplicateDateSurvivesReordering(a: seq<Row>, b: seq<Row>, i: nat, j: nat)
    requires multiset(a) == multiset(b) && i < j < |a| && a[i].bar.date == a[j].bar.date
    ensures !UniqueDates(b)
  {
    if a[i] == a[j] {
      assert a == a[..i] + [a[i]] + a[i + 1..j] + [a[j]] + a[j + 1..];
      assert multiset(a)[a[i]] >= 2;
      TwoIndices(b, a[i]);
      var p, q :| 0 <= p < q < |b| && b[p] == a[i] && b[q] == a[i];
      assert b[p].bar.date == b[q].bar.date;
    } else {
      assert a[i] in multiset(b) && a[j] in multiset(b);
      var p :| 0 <= p < |b| && b[p] == a[i];
      var q :| 0 <= q < |b| && b[q] == a[j];
      if p < q {
        assert b[p].bar.date == b[q].bar.date;
      } else {
        assert b[q].bar.date == b[p].bar.date;
      }
    }
  }

  lemma ReorderingKeepsUniqueDates(a: seq<Row>, b: seq<Row>)
    requires multiset(a) == multiset(b) && UniqueDates(b)
    ensures UniqueDates(a)
  {
    forall i, j | 0 <= i < j < |a| ensures a[i].bar.date != a[j].bar.date {
      if a[i].bar.date == a[j].bar.date {
        DuplicateDateSurvivesReordering(a, b, i, j);
        assert false;
      }
    }
  }

  /** Sorted by date with no date twice means strictly ascending. */
  lemma SortedUniqueIsAscending(rows: seq<Row>)
    requires SortedByDate(rows) && UniqueDates(rows)
    ensures StrictlyAscending(rows)
  {
    forall i, j | 0 <= i < j < |rows| ensures Before(rows[i].bar.date, rows[j].bar.date) {
      DistinctDatesDistinctDays(rows[i].bar.date, rows[j].bar.date);
    }
  }

  /** The earliest row of a strictly ascending table comes first in any sorting of it. */
  lemma SortingStartsWithEarliest(sorted: seq<Row>, rows: seq<Row>)
    requires IsSortingOf(sorted, rows) && StrictlyAscending(rows) && |rows| > 0
    ensures sorted[0] == rows[0]
  {
    assert sorted[0] in multiset(rows);
    var k :| 0 <= k < |rows| && rows[k] == sorted[0];
    assert rows[0] in multiset(sorted);
    var m :| 0 <= m < |sorted| && sorted[m] == rows[0];
    assert Key(sorted[0]) <= Key(sorted[m]);
    assert k == 0;
  }

  lemma MultisetTail<T>(a: seq<T>, b: seq<T>)
    requires multiset(a) == multiset(b) && |a| > 0 && |b| > 0 && a[0] == b[0]
    ensures multiset(a[1..]) == multiset(b[1..])
  {
    assert a == [a[0]] + a[1..] && b == [b[0]] + b[1..];
    assert multiset(a) == multiset{a[0]} + multiset(a[1..]);
    assert multiset(b) == multiset{b[0]} + multiset(b[1..]);
    assert multiset(a[1..]) == multiset(a) - multiset{a[0]};
    assert multiset(b[1..]) == multiset(b) - multiset{b[0]};
  }

  /** A strictly ascending table is its own only sorting. */
  lemma {:induction false} SortingOfAscendingIsIdentity(sorted: seq<Row>, rows: seq<Row>)
    requires IsSortingOf(sorted, rows) && StrictlyAscending(rows)
    ensures sorted == rows
    decreases |rows|
  {
    if rows != [] {
      SortingStartsWithEarliest(sorted, rows);
      MultisetTail(sorted, rows);
      assert SortedByDate(sorted[1..]);
      assert StrictlyAscending(rows[1..]);
      SortingOfAscendingIsIdentity(sorted[1..], rows[1..]);
      assert sorted == [sorted[0]] + sorted[1..] && rows == [rows[0]] + rows[1..];
    }
  }

  /** Deduplicating a table whose dates are unique changes nothing. */
  lemma {:induction false} FirstByDateOfUnique(rows: seq<Row>)
    requires UniqueDates(rows)
    ensures FirstByDate(rows) == rows
  {
    if rows != [] {
      var prefix := rows[..|rows| - 1];
      FirstByDateOfUnique(prefix);
      assert rows[|rows| - 1].bar.date !in DatesOf(prefix);
      assert rows == prefix + [rows[|rows| - 1]];
    }
  }

  /** Appending rows whose dates are already present changes nothing. */
  lemma {:induction false} FirstByDateIgnoresSeenDates(rows: seq<Row>, fetched: seq<Row>)
    requires DatesOf(fetched) <= DatesOf(rows)
    ensures FirstByDate(rows + fetched) == FirstByDate(rows)
    decreases |fetched|
  {
    if fetched == [] {
      assert rows + fetched == rows;
    } else {
      var front := fetched[..|fetched| - 1];
      var last := fetched[|fetched| - 1];
      assert fetched == front + [last];
      DatesOfSnoc(front, last);
      FirstByDateIgnoresSeenDates(rows, front);
      assert (rows + fetched)[..|rows + fetched| - 1] == rows + front;
      assert (rows + fetched)[|rows + fetched| - 1] == last;
      DatesOfConcat(rows, front);
    }
  }

  // ------------------------------------------------------------- update

  /** `update_ticker_data`: returns the table and whether it was written to
      the archive file. */
  method UpdateTickerData(lastSaved: Option<Date>, today: Date, existing: seq<Row>,
                          download: Date -> seq<Bar>) returns (result: seq<Row>, written: bool)
    ensures lastSaved.Some? && Before(today, NextDay(lastSaved.value)) ==>
      result == existing && !written
    ensures (lastSaved.Some? && !Before(today, NextDay(lastSaved.value)) &&
             FetchNewData(download, NextDay(lastSaved.value)) == []) ==>
      result == existing && !written
    ensures (lastSaved.Some? && !Before(today, NextDay(lastSaved.value)) &&
             FetchNewData(download, NextDay(lastSaved.value)) != []) ==>
      written && IsSortingOf(result, FirstByDate(existing + FetchNewData(download, NextDay(lastSaved.value))))
    ensures lastSaved.None? && FetchNewData(download, ColdStart) == [] ==> result == [] && !written
    ensures lastSaved.None? && FetchNewData(download, ColdStart) != [] ==>
      written && IsSortingOf(result, FetchNewData(download, ColdStart))
  {
    var combined: seq<Row>;
    if lastSaved.Some? {
      var start := NextDay(lastSaved.value);
      if Before(today, start) {
        return existing, false;
      }
      var fetched := FetchNewData(download, start);
      if fetched == [] {
        return existing, false;
      }
      combined := DropDuplicateDates(existing + fetched);
    } else {
      combined := FetchNewData(download, ColdStart);
      if combined == [] {
        return [], false;
      }
    }
    result := SortRows(combined);
    written := true;
  }

  /** Reordering rows keeps the set of their dates. */
  lemma ReorderingKeepsDates(a: seq<Row>, b: seq<Row>)
    requires multiset(a) == multiset(b)
    ensures DatesOf(a) == DatesOf(b)
  {
    forall e | e in DatesOf(a) ensures e in DatesOf(b) {
      var i :| 0 <= i < |a| && a[i].bar.date == e;
      assert a[i] in multiset(b);
    }
    forall e | e in DatesOf(b) ensures e in DatesOf(a) {
      var i :| 0 <= i < |b| && b[i].bar.date == e;
      assert b[i] in multiset(a);
    }
  }

  /** Every row of a reordered merge comes from the archive when its date is
      archived, and from the fetched slice otherwise. */
  lemma ReorderedProvenance(result: seq<Row>, existing: seq<Row>, fetched: seq<Row>)
    requires multiset(result) == multiset(FirstByDate(existing + fetched))
    ensures forall r :: r in result && r.bar.date in DatesOf(existing) ==> FirstWith(existing, r.bar.date) == Some(r)
    ensures forall r :: r in result && r.bar.date !in DatesOf(existing) ==> FirstWith(fetched, r.bar.date) == Some(r)
  {
    var kept := FirstByDate(existing + fetched);
    forall r | r in result ensures
      (r.bar.date in DatesOf(existing) ==> FirstWith(existing, r.bar.date) == Some(r)) &&
      (r.bar.date !in DatesOf(existing) ==> FirstWith(fetched, r.bar.date) == Some(r))
    {
      assert r in multiset(kept);
      var k :| 0 <= k < |kept| && kept[k] == r;
      MergeProvenance(existing, fetched, k);
    }
  }

  /** An incremental merge has no date twice, is strictly ascending, has
      exactly the dates of the archive and of the fetched slice, and takes
      each row from the archive when the archive has its date. */
  lemma MergedTable(result: seq<Row>, existing: seq<Row>, fetched: seq<Row>)
    requires IsSortingOf(result, FirstByDate(existing + fetched))
    ensures UniqueDates(result) && StrictlyAscending(result)
    ensures DatesOf(result) == DatesOf(existing) + DatesOf(fetched)
    ensures forall r :: r in result && r.bar.date in DatesOf(existing) ==> FirstWith(existing, r.bar.date) == Some(r)
    ensures forall r :: r in result && r.bar.date !in DatesOf(existing) ==> FirstWith(fetched, r.bar.date) == Some(r)
  {
    var kept := FirstByDate(existing + fetched);
    FirstByDateDates(existing + fetched);
    DatesOfConcat(existing, fetched);
    ReorderingKeepsUniqueDates(result, kept);
    SortedUniqueIsAscending(result);
    ReorderingKeepsDates(result, kept);
    ReorderedProvenance(result, existing, fetched);
  }

  /** Although pandas' sort is not stable, the merged table is fully
      determined: any two sortings of the de-duplicated merge are equal. */
  lemma MergeIsDetermined(r1: seq<Row>, r2: seq<Row>, existing: seq<Row>, fetched: seq<Row>)
    requires IsSortingOf(r1, FirstByDate(existing + fetched))
    requires IsSortingOf(r2, FirstByDate(existing + fetched))
    ensures r1 == r2
  {
    MergedTable(r1, existing, fetched);
    SortingOfAscendingIsIdentity(r2, r1);
  }

  /** Fetching only dates the archive already has leaves a strictly ascending
      archive exactly as it was. */
  lemma MergeIsIdempotent(result: seq<Row>, existing: seq<Row>, fetched: seq<Row>)
    requires StrictlyAscending(existing) && DatesOf(fetched) <= DatesOf(existing)
    requires IsSortingOf(result, FirstByDate(existing + fetched))
    ensures result == existing
  {
    assert UniqueDates(existing) by {
      forall i, j | 0 <= i < j < |existing| ensures existing[i].bar.date != existing[j].bar.date {
        assert Before(existing[i].bar.date, existing[j].bar.date);
      }
    }
    FirstByDateIgnoresSeenDates(existing, fetched);
    FirstByDateOfUnique(existing);
    SortingOfAscendingIsIdentity(result, existing);
  }
}
