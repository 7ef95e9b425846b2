/**
 * The report page, src/pages/Reports.tsx: the expense share of each category, the
 * income and expense of each of the last 30 days or 12 months, and income, expense and
 * savings of each of the last 6 months or 6 years.
 *
 * A report's `dataMap` is a JavaScript object; it is kept here as its entries in the
 * order `Object.values` lists them. `today` is the current date, and the current
 * instant is later than the midnight that starts it.
 */
module Reports {
  import opened Calendar
  import opened Records
  import opened Seqs
  import opened FinanceSummary

  /** The page's `timeFrame` switch. */
  datatype TimeFrame = MonthFrame | YearFrame

  /**
   * The name of a bucket: `${month + 1}/${day}`, `${monthLabels[month]} ${year}` or
   * `${year}`. Each text is determined by these fields and determines them.
   */
  datatype Label = DayLabel(month: Month, day: Day) | MonthLabel(year: int, month: Month) | YearLabel(year: int)

  datatype Point = Point(name: Label, income: nat, expense: nat)

  datatype Row = Row(name: Label, income: nat, expense: nat, savings: int)

  // ---------------------------------------------------------------------------------
  // The order of `Object.values`

  /**
   * A key JavaScript treats as an array index (the decimal text of an integer from 0
   * to 2^32 - 2). `Object.values` lists those first, in ascending numeric order, and
   * then the other keys in insertion order.
   */
  predicate IsIndexKey(l: Label) {
    l.YearLabel? && 0 <= l.year <= 0xFFFF_FFFE
  }

  function KeyNumber(l: Label): int {
    if l.YearLabel? then l.year else 0
  }

  /** The entries with an array-index key, in insertion order. */
  function IndexKeyed<T>(s: seq<T>, nameOf: T -> Label): seq<T> {
    if s == [] then []
    else (if IsIndexKey(nameOf(s[0])) then [s[0]] else []) + IndexKeyed(s[1..], nameOf)
  }

  /** The other entries, in insertion order. */
  function OtherKeyed<T>(s: seq<T>, nameOf: T -> Label): seq<T> {
    if s == [] then []
    else (if IsIndexKey(nameOf(s[0])) then [] else [s[0]]) + OtherKeyed(s[1..], nameOf)
  }

  /** Ascending key number, as a key for `SortDesc`. */
  function AscendingKey<T>(nameOf: T -> Label): T -> real {
    (x: T) => -(KeyNumber(nameOf(x)) as real)
  }

  /** `Object.values` of an object whose entries, in insertion order, are `s`. */
  function ObjectValues<T>(s: seq<T>, nameOf: T -> Label): seq<T> {
    SortDesc(IndexKeyed(s, nameOf), AscendingKey(nameOf)) + OtherKeyed(s, nameOf)
  }

  /** Without array-index keys, `Object.values` keeps the insertion order. */
  lemma {:induction false} NoIndexKeys<T>(s: seq<T>, nameOf: T -> Label)
    requires forall i :: 0 <= i < |s| ==> !IsIndexKey(nameOf(s[i]))
    ensures ObjectValues(s, nameOf) == s
  {
    OnlyOtherKeys(s, nameOf);
  }

  lemma {:induction false} OnlyOtherKeys<T>(s: seq<T>, nameOf: T -> Label)
    requires forall i :: 0 <= i < |s| ==> !IsIndexKey(nameOf(s[i]))
    ensures IndexKeyed(s, nameOf) == [] && OtherKeyed(s, nameOf) == s
  {
    if s != [] {
      assert !IsIndexKey(nameOf(s[0]));
      OnlyOtherKeys(s[1..], nameOf);
      assert s == [s[0]] + s[1..];
    }
  }

  lemma {:induction false} OnlyIndexKeys<T>(s: seq<T>, nameOf: T -> Label)
    requires forall i :: 0 <= i < |s| ==> IsIndexKey(nameOf(s[i]))
    ensures IndexKeyed(s, nameOf) == s && OtherKeyed(s, nameOf) == []
  {
    if s != [] {
      assert IsIndexKey(nameOf(s[0]));
      OnlyIndexKeys(s[1..], nameOf);
      assert s == [s[0]] + s[1..];
    }
  }

  /** Two orderings of the same values by a key that tells them all apart are equal. */
  lemma {:induction false} SortedUnique<T>(a: seq<T>, b: seq<T>, key: T -> real)
    requires SortedDesc(a, key) && SortedDesc(b, key) && multiset(a) == multiset(b)
    requires forall i, j :: 0 <= i < j < |a| ==> key(a[i]) != key(a[j])
    ensures a == b
    decreases |a|
  {
    assert |b| == |multiset(b)| == |a|;
    if a != [] {
      SortedHeads(a, b, key);
      var a', b' := a[1..], b[1..];
      MultisetTail(a, b);
      SortedTail(a, key);
      SortedTail(b, key);
      SortedUnique(a', b', key);
    }
  }

  lemma MultisetTail<T>(a: seq<T>, b: seq<T>)
    requires a != [] && b != [] && a[0] == b[0] && multiset(a) == multiset(b)
    ensures multiset(a[1..]) == multiset(b[1..])
  {
    assert a == [a[0]] + a[1..] && b == [b[0]] + b[1..];
    assert multiset(a[1..]) == multiset(a) - multiset{a[0]};
    assert multiset(b[1..]) == multiset(b) - multiset{a[0]};
  }

  lemma SortedTail<T>(a: seq<T>, key: T -> real)
    requires a != [] && SortedDesc(a, key)
    ensures SortedDesc(a[1..], key)
    ensures (forall i, j :: 0 <= i < j < |a| ==> key(a[i]) != key(a[j])) ==>
            forall i, j :: 0 <= i < j < |a[1..]| ==> key(a[1..][i]) != key(a[1..][j])
  {
    forall i, j | 0 <= i < j < |a[1..]| ensures key(a[1..][i]) >= key(a[1..][j]) {
      assert a[1..][i] == a[i + 1] && a[1..][j] == a[j + 1];
    }
    if forall i, j :: 0 <= i < j < |a| ==> key(a[i]) != key(a[j]) {
      forall i, j | 0 <= i < j < |a[1..]| ensures key(a[1..][i]) != key(a[1..][j]) {
        assert a[1..][i] == a[i + 1] && a[1..][j] == a[j + 1];
      }
    }
  }

  /** The first elements of two such orderings agree. */
  lemma SortedHeads<T>(a: seq<T>, b: seq<T>, key: T -> real)
    requires a != [] && |a| == |b|
    requires SortedDesc(a, key) && SortedDesc(b, key) && multiset(a) == multiset(b)
    requires forall i, j :: 0 <= i < j < |a| ==> key(a[i]) != key(a[j])
    ensures a[0] == b[0]
  {
    assert b[0] in multiset(a) && a[0] in multiset(b);
    var m :| 0 <= m < |a| && a[m] == b[0];
    var k :| 0 <= k < |b| && b[k] == a[0];
    assert key(a[0]) >= key(a[m]);
    assert key(b[0]) >= key(b[k]);
  }

  /**
   * Entries inserted under array-index keys in strictly descending numeric order come
   * out of `Object.values` in the opposite order.
   */
  lemma DescendingIndexKeysReversed<T>(s: seq<T>, nameOf: T -> Label)
    requires forall i :: 0 <= i < |s| ==> IsIndexKey(nameOf(s[i]))
    requires forall i, j :: 0 <= i < j < |s| ==> KeyNumber(nameOf(s[i])) > KeyNumber(nameOf(s[j]))
    ensures ObjectValues(s, nameOf) == Reverse(s)
  {
    OnlyIndexKeys(s, nameOf);
    var key := AscendingKey(nameOf);
    var r := Reverse(s);
    ReversedAscending(s, nameOf);
    ReverseMultiset(s);
    var sorted := SortDesc(s, key);
    SortedUnique(r, sorted, key);
    assert sorted + [] == sorted;
  }

  lemma ReversedAscending<T>(s: seq<T>, nameOf: T -> Label)
    requires forall i, j :: 0 <= i < j < |s| ==> KeyNumber(nameOf(s[i])) > KeyNumber(nameOf(s[j]))
    ensures SortedDesc(Reverse(s), AscendingKey(nameOf))
    ensures forall i, j :: 0 <= i < j < |s| ==> AscendingKey(nameOf)(Reverse(s)[i]) != AscendingKey(nameOf)(Reverse(s)[j])
  {
    var r := Reverse(s);
    forall i, j | 0 <= i < j < |s|
      ensures AscendingKey(nameOf)(r[i]) > AscendingKey(nameOf)(r[j])
    {
      assert r[i] == s[|s| - 1 - i] && r[j] == s[|s| - 1 - j];
    }
  }

  lemma {:induction false} ReverseMultiset<T>(s: seq<T>)
    ensures multiset(Reverse(s)) == multiset(s)
  {
    if s != [] {
      ReverseMultiset(s[1..]);
      assert s == [s[0]] + s[1..];
    }
  }

  // ---------------------------------------------------------------------------------
  // Buckets

  function PointLabels(m: seq<Point>): (r: seq<Label>)
    ensures |r| == |m|
    ensures forall i :: 0 <= i < |m| ==> r[i] == m[i].name
  {
    seq(|m|, i requires 0 <= i < |m| => m[i].name)
  }

  /** `dataMap[p.name] = p`: an existing key keeps its place, a new key goes last. */
  function Put(m: seq<Point>, p: Point): (r: seq<Point>)
  {
    if p.name in PointLabels(m) then seq(|m|, i requires 0 <= i < |m| => if m[i].name == p.name then p else m[i])
    else m + [p]
  }

  /**
   * The loop that creates one empty bucket per label: one bucket for each distinct
   * label, in order of first appearance.
   */
  method InitBuckets(names: seq<Label>) returns (m: seq<Point>)
    ensures PointLabels(m) == Distinct(names)
    ensures forall k :: 0 <= k < |m| ==> m[k].income == 0 && m[k].expense == 0
  {
    m := [];
    var i := 0;
    while i < |names|
      invariant 0 <= i <= |names|
      invariant PointLabels(m) == Distinct(names[..i])
      invariant forall k :: 0 <= k < |m| ==> m[k].income == 0 && m[k].expense == 0
    {
      assert names[..i + 1][..i] == names[..i];
      m := Put(m, Point(names[i], 0, 0));
      i := i + 1;
    }
    assert names[..|names|] == names;
  }

  /** The amounts of one kind that `admit` lets through and that carry the label `name`. */
  function BucketSum(ts: seq<Transaction>, name: Label, nameOf: Transaction -> Label, admit: Transaction -> bool, kind: Kind): nat {
    SumWhere(ts, (t: Transaction) => admit(t) && nameOf(t) == name && t.kind == kind)
  }

  lemma BucketSumSnoc(s: seq<Transaction>, t: Transaction, name: Label, nameOf: Transaction -> Label, admit: Transaction -> bool, kind: Kind)
    ensures BucketSum(s + [t], name, nameOf, admit, kind)
         == BucketSum(s, name, nameOf, admit, kind) + (if admit(t) && nameOf(t) == name && t.kind == kind then t.amount else 0)
  {
    SumWhereSnoc(s, t, (t: Transaction) => admit(t) && nameOf(t) == name && t.kind == kind);
  }

  /**
   * The `transactions.forEach`: a transaction that `admit` lets through and whose label
   * has a bucket adds its amount to that bucket's income when it is an income and to
   * its expense otherwise; the buckets keep their names and order.
   */
  method Accumulate(m0: seq<Point>, ts: seq<Transaction>, nameOf: Transaction -> Label, admit: Transaction -> bool)
    returns (m: seq<Point>)
    requires NoDuplicates(PointLabels(m0))
    ensures |m| == |m0|
    ensures forall k :: 0 <= k < |m| ==>
              m[k] == Point(m0[k].name,
                            m0[k].income + BucketSum(ts, m0[k].name, nameOf, admit, Income),
                            m0[k].expense + BucketSum(ts, m0[k].name, nameOf, admit, Expense))
  {
    m := m0;
    var j := 0;
    while j < |ts|
      invariant 0 <= j <= |ts|
      invariant Accumulated(m0, m, ts[..j], nameOf, admit)
    {
      assert ts[..j + 1] == ts[..j] + [ts[j]];
      m := AccumulateOne(m0, m, ts[..j], ts[j], nameOf, admit);
      j := j + 1;
    }
    assert ts[..|ts|] == ts;
  }

  /** The buckets `m` are the buckets `m0` with the transactions `s` added. */
  predicate Accumulated(m0: seq<Point>, m: seq<Point>, s: seq<Transaction>, nameOf: Transaction -> Label, admit: Transaction -> bool) {
    |m| == |m0| && PointLabels(m) == PointLabels(m0) &&
    forall k :: 0 <= k < |m| ==>
      m[k] == Point(m0[k].name,
                    m0[k].income + BucketSum(s, m0[k].name, nameOf, admit, Income),
                    m0[k].expense + BucketSum(s, m0[k].name, nameOf, admit, Expense))
  }

  /** One pass of the `forEach`: the transaction's amount goes to its bucket, if it has one. */
  method AccumulateOne(m0: seq<Point>, m: seq<Point>, ghost s: seq<Transaction>, t: Transaction,
                       nameOf: Transaction -> Label, admit: Transaction -> bool)
    returns (m': seq<Point>)
    requires NoDuplicates(PointLabels(m0)) && Accumulated(m0, m, s, nameOf, admit)
    ensures Accumulated(m0, m', s + [t], nameOf, admit)
  {
    forall k | 0 <= k < |m0|
      ensures BucketSum(s + [t], m0[k].name, nameOf, admit, Income)
           == BucketSum(s, m0[k].name, nameOf, admit, Income)
              + (if admit(t) && nameOf(t) == m0[k].name && t.kind == Income then t.amount else 0)
      ensures BucketSum(s + [t], m0[k].name, nameOf, admit, Expense)
           == BucketSum(s, m0[k].name, nameOf, admit, Expense)
              + (if admit(t) && nameOf(t) == m0[k].name && t.kind == Expense then t.amount else 0)
    {
      BucketSumSnoc(s, t, m0[k].name, nameOf, admit, Income);
      BucketSumSnoc(s, t, m0[k].name, nameOf, admit, Expense);
    }
    m' := m;
    var name := nameOf(t);
    if admit(t) && name in PointLabels(m) {
      var k := FirstIndex(PointLabels(m), name);
      assert forall k' :: 0 <= k' < |m0| && k' != k ==> m0[k'].name != name by {
        forall k' | 0 <= k' < |m0| && k' != k ensures m0[k'].name != name {
          assert PointLabels(m0)[k'] != PointLabels(m0)[k];
        }
      }
      if t.kind == Income {
        m' := m[k := m[k].(income := m[k].income + t.amount)];
      } else {
        m' := m[k := m[k].(expense := m[k].expense + t.amount)];
      }
    } else {
      assert forall k :: 0 <= k < |m0| ==> !(admit(t) && nameOf(t) == m0[k].name) by {
        forall k | 0 <= k < |m0| ensures !(admit(t) && nameOf(t) == m0[k].name) {
          assert PointLabels(m)[k] == m0[k].name;
        }
      }
    }
  }

  /** The buckets of `names` after the `forEach`, in insertion order. */
  function Tallied(names: seq<Label>, ts: seq<Transaction>, nameOf: Transaction -> Label, admit: Transaction -> bool): (r: seq<Point>)
    ensures |r| == |names|
    ensures forall i :: 0 <= i < |names| ==>
              r[i] == Point(names[i], BucketSum(ts, names[i], nameOf, admit, Income), BucketSum(ts, names[i], nameOf, admit, Expense))
  {
    seq(|names|, i requires 0 <= i < |names| =>
      Point(names[i], BucketSum(ts, names[i], nameOf, admit, Income), BucketSum(ts, names[i], nameOf, admit, Expense)))
  }

  /** Creating the buckets for distinct labels and running the `forEach` gives `Tallied`. */
  method FillBuckets(names: seq<Label>, ts: seq<Transaction>, nameOf: Transaction -> Label, admit: Transaction -> bool)
    returns (m: seq<Point>)
    requires NoDuplicates(names)
    ensures m == Tallied(names, ts, nameOf, admit)
  {
    var m0 := InitBuckets(names);
    DistinctOfDistinct(names);
    m := Accumulate(m0, ts, nameOf, admit);
    forall k | 0 <= k < |m| ensures m[k] == Tallied(names, ts, nameOf, admit)[k] {
      assert m0[k].name == PointLabels(m0)[k] == names[k];
    }
  }

  lemma {:induction false} DistinctOfDistinct<T>(s: seq<T>)
    requires NoDuplicates(s)
    ensures Distinct(s) == s
  {
    if s != [] {
      var p := s[..|s| - 1];
      DistinctOfDistinct(p);
      assert s[|s| - 1] !in p by {
        forall i | 0 <= i < |p| ensures p[i] != s[|s| - 1] {
          assert s[i] != s[|s| - 1];
        }
      }
      assert s == p + [s[|s| - 1]];
    }
  }

  // ---------------------------------------------------------------------------------
  // Labels and filters

  function DayLabelOf(d: Date): Label {
    DayLabel(d.month, d.day)
  }

  function MonthLabelOf(d: Date): Label {
    MonthLabel(d.year, d.month)
  }

  /** The labels of today and the 29 days before it, today first. */
  function DayLabels(today: Date): (r: seq<Label>)
    ensures |r| == 30
    ensures forall i :: 0 <= i < 30 ==> r[i] == DayLabelOf(MinusDays(today, i))
  {
    seq(30, i requires 0 <= i < 30 => DayLabelOf(MinusDays(today, i)))
  }

  /**
   * `daysDiff <= 30`: the fraction of a day since midnight is added to the whole days
   * between the dates, so up to 29 whole days back are let through, and any later
   * date as well.
   */
  predicate WithinThirtyDays(today: Date, d: Date) {
    DayNumber(today) - DayNumber(d) <= 29
  }

  /** `(now.getFullYear() - year) * 12 + (now.getMonth() - month)`. */
  function MonthsDiff(today: Date, year: int, month: Month): int {
    (today.year - year) * 12 + (today.month - month)
  }

  /** The label of the `i`-th month back: `(currentMonth - i + 12) % 12`, in the year before when that wraps. */
  function MonthsBackLabel(today: Date, i: nat): Label
    requires i < 12
  {
    var monthIndex := ((today.month - 1) - i + 12) % 12;
    MonthLabel(today.year + (if monthIndex > today.month - 1 then -1 else 0), monthIndex + 1)
  }

  /** The labels of this month and the `n - 1` months before it, this month first. */
  function MonthLabels(today: Date, n: nat): (r: seq<Label>)
    requires n <= 12
    ensures |r| == n
    ensures forall i :: 0 <= i < n ==> r[i] == MonthsBackLabel(today, i)
  {
    seq(n, i requires 0 <= i < n => MonthsBackLabel(today, i))
  }

  /** The labels of this year and the five before it, this year first. */
  function YearLabels(today: Date): (r: seq<Label>)
    ensures |r| == 6
    ensures forall i :: 0 <= i < 6 ==> r[i] == YearLabel(today.year - i)
  {
    seq(6, i requires 0 <= i < 6 => YearLabel(today.year - i))
  }

  const DayNameOf: Transaction -> Label := (t: Transaction) => DayLabelOf(t.date)
  const MonthNameOf: Transaction -> Label := (t: Transaction) => MonthLabelOf(t.date)
  const YearNameOf: Transaction -> Label := (t: Transaction) => YearLabel(t.date.year)

  function DayAdmit(today: Date): Transaction -> bool {
    (t: Transaction) => WithinThirtyDays(today, t.date)
  }

  /** `monthsDiff < n`. */
  function MonthAdmit(today: Date, n: nat): Transaction -> bool {
    (t: Transaction) => MonthsDiff(today, t.date.year, t.date.month) < n
  }

  /** `year > currentYear - 6`. */
  function YearAdmit(today: Date): Transaction -> bool {
    (t: Transaction) => t.date.year > today.year - 6
  }

  /** The `i`-th month back is `i` months back. */
  lemma MonthsBackDiff(today: Date, i: nat)
    requires i < 12
    ensures MonthsBackLabel(today, i).MonthLabel?
    ensures MonthsDiff(today, MonthsBackLabel(today, i).year, MonthsBackLabel(today, i).month) == i
  {
    var cm := today.month - 1;
    if i <= cm {
      assert (cm - i + 12) % 12 == cm - i;
    } else {
      assert (cm - i + 12) % 12 == cm - i + 12;
    }
  }

  /** A month's label is the `i`-th one back exactly when the month is `i` months back. */
  lemma MonthLabelMatch(today: Date, i: nat, year: int, month: Month)
    requires i < 12
    ensures MonthLabel(year, month) == MonthsBackLabel(today, i) <==> MonthsDiff(today, year, month) == i
  {
    MonthsBackDiff(today, i);
    var l := MonthsBackLabel(today, i);
    if MonthsDiff(today, year, month) == i {
      assert year * 12 + month == l.year * 12 + l.month;
    }
  }

  lemma MonthLabelsDistinct(today: Date, n: nat)
    requires n <= 12
    ensures NoDuplicates(MonthLabels(today, n))
  {
    var r := MonthLabels(today, n);
    forall i, j | 0 <= i < j < n ensures r[i] != r[j] {
      MonthsBackDiff(today, i);
      MonthsBackDiff(today, j);
    }
  }

  lemma DayLabelsDistinct(today: Date)
    requires ValidDate(today)
    ensures NoDuplicates(DayLabels(today))
  {
    var r := DayLabels(today);
    forall i, j | 0 <= i < j < 30 ensures r[i] != r[j] {
      MinusDaysNumber(today, i);
      MinusDaysNumber(today, j);
      NearDatesDifferInMonthDay(MinusDays(today, j), MinusDays(today, i));
    }
  }

  /**
   * For a transaction dated on a valid day no later than today, its label is the label
   * of the `i`-th day back and it is let through exactly when it is dated on that day.
   */
  lemma DayMatch(today: Date, d: Date, i: nat)
    requires ValidDate(today) && ValidDate(d) && DayNumber(d) <= DayNumber(today) && i < 30
    ensures (WithinThirtyDays(today, d) && DayLabelOf(d) == DayLabelOf(MinusDays(today, i))) <==> d == MinusDays(today, i)
  {
    var k := MinusDays(today, i);
    MinusDaysNumber(today, i);
    if WithinThirtyDays(today, d) && DayLabelOf(d) == DayLabelOf(k) {
      if DayNumber(d) < DayNumber(k) {
        NearDatesDifferInMonthDay(d, k);
      } else if DayNumber(d) > DayNumber(k) {
        NearDatesDifferInMonthDay(k, d);
      } else {
        DayNumberInjective(d, k);
      }
    }
  }

  // ---------------------------------------------------------------------------------
  // getTimeSeriesData

  function SeriesLabels(today: Date, frame: TimeFrame): seq<Label> {
    if frame == MonthFrame then DayLabels(today) else MonthLabels(today, 12)
  }

  function SeriesNameOf(frame: TimeFrame): Transaction -> Label {
    if frame == MonthFrame then DayNameOf else MonthNameOf
  }

  function SeriesAdmit(today: Date, frame: TimeFrame): Transaction -> bool {
    if frame == MonthFrame then DayAdmit(today) else MonthAdmit(today, 12)
  }

  function PointName(p: Point): Label {
    p.name
  }

  /** What `getTimeSeriesData` returns: `Object.values(dataMap).reverse()`. */
  function TimeSeries(ts: seq<Transaction>, today: Date, frame: TimeFrame): seq<Point> {
    Reverse(ObjectValues(Tallied(SeriesLabels(today, frame), ts, SeriesNameOf(frame), SeriesAdmit(today, frame)), PointName))
  }

  /** `getTimeSeriesData()`. */
  method GetTimeSeriesData(ts: seq<Transaction>, today: Date, frame: TimeFrame) returns (r: seq<Point>)
    requires ValidDate(today)
    ensures r == TimeSeries(ts, today, frame)
  {
    var names: seq<Label>;
    if frame == MonthFrame {
      names := DayLabels(today);
      DayLabelsDistinct(today);
    } else {
      names := MonthLabels(today, 12);
      MonthLabelsDistinct(today, 12);
    }
    var m := FillBuckets(names, ts, SeriesNameOf(frame), SeriesAdmit(today, frame));
    r := Reverse(ObjectValues(m, PointName));
  }

  /** The amounts of one kind dated on day `d`. */
  function OnDay(ts: seq<Transaction>, d: Date, kind: Kind): nat {
    SumWhere(ts, (t: Transaction) => t.date == d && t.kind == kind)
  }

  /** The amounts of one kind dated `i` months back. */
  function MonthsBack(ts: seq<Transaction>, today: Date, i: int, kind: Kind): nat {
    SumWhere(ts, (t: Transaction) => MonthsDiff(today, t.date.year, t.date.month) == i && t.kind == kind)
  }

  /** The amounts of one kind dated in year `y`. */
  function InYear(ts: seq<Transaction>, y: int, kind: Kind): nat {
    SumWhere(ts, (t: Transaction) => t.date.year == y && t.kind == kind)
  }

  lemma DayBucket(ts: seq<Transaction>, today: Date, i: nat, kind: Kind)
    requires ValidDate(today) && i < 30
    requires forall t :: t in ts ==> ValidDate(t.date) && DayNumber(t.date) <= DayNumber(today)
    ensures BucketSum(ts, DayLabelOf(MinusDays(today, i)), DayNameOf, DayAdmit(today), kind) == OnDay(ts, MinusDays(today, i), kind)
  {
    var name := DayLabelOf(MinusDays(today, i));
    forall t | t in ts
      ensures (DayAdmit(today)(t) && DayNameOf(t) == name && t.kind == kind) <==> (t.date == MinusDays(today, i) && t.kind == kind)
    {
      DayMatch(today, t.date, i);
    }
    SumWhereEquiv(ts, (t: Transaction) => DayAdmit(today)(t) && DayNameOf(t) == name && t.kind == kind,
                      (t: Transaction) => t.date == MinusDays(today, i) && t.kind == kind);
  }

  lemma MonthBucket(ts: seq<Transaction>, today: Date, n: nat, i: nat, kind: Kind)
    requires i < n <= 12
    ensures BucketSum(ts, MonthsBackLabel(today, i), MonthNameOf, MonthAdmit(today, n), kind) == MonthsBack(ts, today, i, kind)
  {
    var name := MonthsBackLabel(today, i);
    forall t | t in ts
      ensures (MonthAdmit(today, n)(t) && MonthNameOf(t) == name && t.kind == kind)
          <==> (MonthsDiff(today, t.date.year, t.date.month) == i && t.kind == kind)
    {
      MonthLabelMatch(today, i, t.date.year, t.date.month);
    }
    SumWhereEquiv(ts, (t: Transaction) => MonthAdmit(today, n)(t) && MonthNameOf(t) == name && t.kind == kind,
                      (t: Transaction) => MonthsDiff(today, t.date.year, t.date.month) == i && t.kind == kind);
  }

  /**
   * Month view of the time series: 30 points, oldest day first, ending with today;
   * each holds the income and the expense dated on its day. Transactions are taken to
   * be dated on valid days no later than today.
   */
  lemma DailySeries(ts: seq<Transaction>, today: Date)
    requires ValidDate(today)
    requires forall t :: t in ts ==> ValidDate(t.date) && DayNumber(t.date) <= DayNumber(today)
    ensures |TimeSeries(ts, today, MonthFrame)| == 30
    ensures forall k :: 0 <= k < 30 ==>
              var d := MinusDays(today, 29 - k);
              TimeSeries(ts, today, MonthFrame)[k] == Point(DayLabelOf(d), OnDay(ts, d, Income), OnDay(ts, d, Expense))
  {
    var m := Tallied(DayLabels(today), ts, DayNameOf, DayAdmit(today));
    NoIndexKeys(m, PointName);
    forall k | 0 <= k < 30
      ensures var d := MinusDays(today, 29 - k);
              TimeSeries(ts, today, MonthFrame)[k] == Point(DayLabelOf(d), OnDay(ts, d, Income), OnDay(ts, d, Expense))
    {
      DayBucket(ts, today, 29 - k, Income);
      DayBucket(ts, today, 29 - k, Expense);
    }
  }

  /**
   * Year view of the time series: 12 points, the month eleven months back first and
   * this month last; each holds the income and the expense of its month. A transaction
   * in a later month than the current one is in none of them.
   */
  lemma MonthlySeries(ts: seq<Transaction>, today: Date)
    ensures |TimeSeries(ts, today, YearFrame)| == 12
    ensures forall k :: 0 <= k < 12 ==>
              TimeSeries(ts, today, YearFrame)[k]
                == Point(MonthsBackLabel(today, 11 - k), MonthsBack(ts, today, 11 - k, Income), MonthsBack(ts, today, 11 - k, Expense))
  {
    var m := Tallied(MonthLabels(today, 12), ts, MonthNameOf, MonthAdmit(today, 12));
    NoIndexKeys(m, PointName);
    forall k | 0 <= k < 12
      ensures TimeSeries(ts, today, YearFrame)[k]
                == Point(MonthsBackLabel(today, 11 - k), MonthsBack(ts, today, 11 - k, Income), MonthsBack(ts, today, 11 - k, Expense))
    {
      MonthBucket(ts, today, 12, 11 - k, Income);
      MonthBucket(ts, today, 12, 11 - k, Expense);
    }
  }

  /**
   * The 30-day filter lets through any later date, and a bucket matches on month and
   * day only: a transaction dated a year from today is counted in today's point.
   */
  lemma NextYearCountsToday(t: Transaction, today: Date)
    requires ValidDate(today) && t.date == Date(today.year + 1, today.month, today.day) && ValidDate(t.date)
    ensures DayNumber(t.date) > DayNumber(today)
    ensures |TimeSeries([t], today, MonthFrame)| == 30
    ensures TimeSeries([t], today, MonthFrame)[29]
              == Point(DayLabelOf(today), if t.kind == Income then t.amount else 0, if t.kind == Expense then t.amount else 0)
  {
    DayNumberOrder(today, t.date);
    LastDayPoint([t], today);
    assert DayAdmit(today)(t) && DayNameOf(t) == DayLabelOf(today);
    BucketSumSnoc([], t, DayLabelOf(today), DayNameOf, DayAdmit(today), Income);
    BucketSumSnoc([], t, DayLabelOf(today), DayNameOf, DayAdmit(today), Expense);
    assert [] + [t] == [t];
  }

  /** The last point of the month view is today's bucket. */
  lemma LastDayPoint(ts: seq<Transaction>, today: Date)
    ensures |TimeSeries(ts, today, MonthFrame)| == 30
    ensures TimeSeries(ts, today, MonthFrame)[29]
              == Point(DayLabelOf(today), BucketSum(ts, DayLabelOf(today), DayNameOf, DayAdmit(today), Income),
                                          BucketSum(ts, DayLabelOf(today), DayNameOf, DayAdmit(today), Expense))
  {
    var m := Tallied(DayLabels(today), ts, DayNameOf, DayAdmit(today));
    NoIndexKeys(m, PointName);
    assert MinusDays(today, 0) == today;
    assert m[0].name == DayLabelOf(today);
  }

  // ---------------------------------------------------------------------------------
  // getIncomeVsExpenseData

  function IncomeLabels(today: Date, frame: TimeFrame): seq<Label> {
    if frame == MonthFrame then MonthLabels(today, 6) else YearLabels(today)
  }

  function IncomeNameOf(frame: TimeFrame): Transaction -> Label {
    if frame == MonthFrame then MonthNameOf else YearNameOf
  }

  function IncomeAdmit(today: Date, frame: TimeFrame): Transaction -> bool {
    if frame == MonthFrame then MonthAdmit(today, 6) else YearAdmit(today)
  }

  function RowName(r: Row): Label {
    r.name
  }

  /** Each bucket with `savings = income - expense`. */
  function WithSavings(m: seq<Point>): (r: seq<Row>)
    ensures |r| == |m|
    ensures forall i :: 0 <= i < |m| ==>
              r[i].name == m[i].name && r[i].income == m[i].income && r[i].expense == m[i].expense &&
              r[i].savings == r[i].income - r[i].expense
  {
    seq(|m|, i requires 0 <= i < |m| => Row(m[i].name, m[i].income, m[i].expense, m[i].income - m[i].expense))
  }

  /** The loop that sets each bucket's savings. */
  method AddSavings(m: seq<Point>) returns (rows: seq<Row>)
    ensures rows == WithSavings(m)
  {
    rows := [];
    var i := 0;
    while i < |m|
      invariant 0 <= i <= |m|
      invariant rows == WithSavings(m[..i])
    {
      rows := rows + [Row(m[i].name, m[i].income, m[i].expense, m[i].income - m[i].expense)];
      i := i + 1;
    }
    assert m[..|m|] == m;
  }

  /** What `getIncomeVsExpenseData` returns: `Object.values(dataMap).reverse()`. */
  function IncomeVsExpense(ts: seq<Transaction>, today: Date, frame: TimeFrame): seq<Row> {
    Reverse(ObjectValues(WithSavings(Tallied(IncomeLabels(today, frame), ts, IncomeNameOf(frame), IncomeAdmit(today, frame))), RowName))
  }

  /** `getIncomeVsExpenseData()`. */
  method GetIncomeVsExpenseData(ts: seq<Transaction>, today: Date, frame: TimeFrame) returns (r: seq<Row>)
    ensures r == IncomeVsExpense(ts, today, frame)
  {
    var names: seq<Label>;
    if frame == MonthFrame {
      names := MonthLabels(today, 6);
      MonthLabelsDistinct(today, 6);
    } else {
      names := YearLabels(today);
    }
    var m := FillBuckets(names, ts, IncomeNameOf(frame), IncomeAdmit(today, frame));
    var rows := AddSavings(m);
    r := Reverse(ObjectValues(rows, RowName));
  }

  /**
   * Month view: six bars, the month five months back first and this month last, each
   * with that month's income, expense, and their difference.
   */
  lemma IncomeVsExpenseMonthly(ts: seq<Transaction>, today: Date)
    ensures |IncomeVsExpense(ts, today, MonthFrame)| == 6
    ensures forall k :: 0 <= k < 6 ==>
              var r := IncomeVsExpense(ts, today, MonthFrame)[k];
              r.name == MonthsBackLabel(today, 5 - k) &&
              r.income == MonthsBack(ts, today, 5 - k, Income) &&
              r.expense == MonthsBack(ts, today, 5 - k, Expense) &&
              r.savings == r.income - r.expense
  {
    var rows := WithSavings(Tallied(MonthLabels(today, 6), ts, MonthNameOf, MonthAdmit(today, 6)));
    NoIndexKeys(rows, RowName);
    forall k | 0 <= k < 6
      ensures var r := IncomeVsExpense(ts, today, MonthFrame)[k];
              r.name == MonthsBackLabel(today, 5 - k) &&
              r.income == MonthsBack(ts, today, 5 - k, Income) &&
              r.expense == MonthsBack(ts, today, 5 - k, Expense) &&
              r.savings == r.income - r.expense
    {
      MonthBucket(ts, today, 6, 5 - k, Income);
      MonthBucket(ts, today, 6, 5 - k, Expense);
    }
  }

  lemma YearBucket(ts: seq<Transaction>, today: Date, i: nat, kind: Kind)
    requires i < 6
    ensures BucketSum(ts, YearLabel(today.year - i), YearNameOf, YearAdmit(today), kind) == InYear(ts, today.year - i, kind)
  {
    SumWhereEquiv(ts, (t: Transaction) => YearAdmit(today)(t) && YearNameOf(t) == YearLabel(today.year - i) && t.kind == kind,
                      (t: Transaction) => t.date.year == today.year - i && t.kind == kind);
  }

  /**
   * Year view: the year keys are array indices, which `Object.values` lists in
   * ascending order, so after the `reverse` the six bars run from this year back to
   * five years ago, the opposite direction of every other report. Each holds its
   * year's income, expense and their difference.
   */
  lemma IncomeVsExpenseYearly(ts: seq<Transaction>, today: Date)
    requires 5 <= today.year <= 0xFFFF_FFFE
    ensures |IncomeVsExpense(ts, today, YearFrame)| == 6
    ensures forall k :: 0 <= k < 6 ==>
              var r := IncomeVsExpense(ts, today, YearFrame)[k];
              r.name == YearLabel(today.year - k) &&
              r.income == InYear(ts, today.year - k, Income) &&
              r.expense == InYear(ts, today.year - k, Expense) &&
              r.savings == r.income - r.expense
  {
    var rows := WithSavings(Tallied(YearLabels(today), ts, YearNameOf, YearAdmit(today)));
    DescendingIndexKeysReversed(rows, RowName);
    forall k | 0 <= k < 6
      ensures var r := IncomeVsExpense(ts, today, YearFrame)[k];
              r.name == YearLabel(today.year - k) &&
              r.income == InYear(ts, today.year - k, Income) &&
              r.expense == InYear(ts, today.year - k, Expense) &&
              r.savings == r.income - r.expense
    {
      YearBucket(ts, today, k, Income);
      YearBucket(ts, today, k, Expense);
    }
  }

  // ---------------------------------------------------------------------------------
  // getCategoryData

  /** One slice of a category chart: the category's name, expense sum and colour. */
  datatype Slice = Slice(name: string, value: nat, color: string)

  const FallbackColor := "#94a3b8"

  /** `categories.find(c => c.name === name)`. */
  function FindByName(cats: seq<Category>, name: string): (r: Option<Category>)
    ensures r.None? <==> forall c :: c in cats ==> c.name != name
    ensures r.Some? ==> r.value in cats && r.value.name == name
  {
    if cats == [] then None
    else if cats[0].name == name then Some(cats[0])
    else FindByName(cats[1..], name)
  }

  /** `find` returns the first category with the name. */
  lemma {:induction false} FindByNameFirst(cats: seq<Category>, name: string, i: nat)
    requires i < |cats| && cats[i].name == name
    requires forall j :: 0 <= j < i ==> cats[j].name != name
    ensures FindByName(cats, name) == Some(cats[i])
  {
    if i > 0 {
      FindByNameFirst(cats[1..], name, i - 1);
    }
  }

  /** `categoryObj?.color || '#94a3b8'`. */
  function ColorFor(cats: seq<Category>, name: string): string {
    match FindByName(cats, name)
    case None => FallbackColor
    case Some(c) => if c.color != "" then c.color else FallbackColor
  }

  /**
   * The colour of the first category with the name, unless that colour is empty; the
   * fallback grey when there is none. A slice never gets an empty colour.
   */
  lemma ColorForSpec(cats: seq<Category>, name: string, i: nat)
    requires i < |cats| && cats[i].name == name
    requires forall j :: 0 <= j < i ==> cats[j].name != name
    ensures ColorFor(cats, name) == if cats[i].color != "" then cats[i].color else FallbackColor
  {
    FindByNameFirst(cats, name, i);
  }

  lemma ColorForMissing(cats: seq<Category>, name: string)
    requires forall c :: c in cats ==> c.name != name
    ensures ColorFor(cats, name) == FallbackColor
  {
  }

  function SliceValue(s: Slice): real {
    s.value as real
  }

  function SliceName(s: Slice): string {
    s.name
  }

  function SliceNames(s: seq<Slice>): (r: seq<string>)
    ensures |r| == |s|
    ensures forall i :: 0 <= i < |s| ==> r[i] == s[i].name
  {
    seq(|s|, i requires 0 <= i < |s| => s[i].name)
  }

  /** The `Object.entries(...).map(...)` step: each tallied category with its colour. */
  function ToSlices(tally: seq<CategoryTotal>, cats: seq<Category>): (r: seq<Slice>)
    ensures |r| == |tally|
    ensures forall i :: 0 <= i < |r| ==> r[i] == Slice(tally[i].category, tally[i].amount, ColorFor(cats, tally[i].category))
  {
    seq(|tally|, i requires 0 <= i < |tally| => Slice(tally[i].category, tally[i].amount, ColorFor(cats, tally[i].category)))
  }

  /**
   * `getCategoryData()`: one slice per expense category, no category twice, each with
   * the sum of the category's expenses and its colour, largest first; no cut.
   */
  method GetCategoryData(ts: seq<Transaction>, cats: seq<Category>) returns (r: seq<Slice>)
    ensures SortedDesc(r, SliceValue)
    ensures forall i, j :: 0 <= i < j < |r| ==> r[i].name != r[j].name
    ensures forall c :: c in ExpenseCategories(ts) <==> exists i :: 0 <= i < |r| && r[i].name == c
    ensures forall i :: 0 <= i < |r| ==> r[i].value == CategoryExpense(ts, r[i].name) && r[i].color == ColorFor(cats, r[i].name)
  {
    var tally := TallyExpenses(ts);
    var slices := ToSlices(tally, cats);
    r := SortDesc(slices, SliceValue);
    CategorySlices(ts, cats, tally, r);
  }

  /** Any reordering of the tally's slices names each expense category once, with its sum and colour. */
  lemma {:induction false} CategorySlices(ts: seq<Transaction>, cats: seq<Category>, tally: seq<CategoryTotal>, r: seq<Slice>)
    requires Names(tally) == Distinct(ExpenseCategories(ts))
    requires forall i :: 0 <= i < |tally| ==> tally[i].amount == CategoryExpense(ts, tally[i].category)
    requires multiset(r) == multiset(ToSlices(tally, cats))
    ensures forall i, j :: 0 <= i < j < |r| ==> r[i].name != r[j].name
    ensures forall c :: c in ExpenseCategories(ts) <==> exists i :: 0 <= i < |r| && r[i].name == c
    ensures forall i :: 0 <= i < |r| ==> r[i].value == CategoryExpense(ts, r[i].name) && r[i].color == ColorFor(cats, r[i].name)
  {
    var slices := ToSlices(tally, cats);
    DistinctMembers(ExpenseCategories(ts));
    assert forall i, j :: 0 <= i < j < |slices| ==> SliceName(slices[i]) != SliceName(slices[j]) by {
      forall i, j | 0 <= i < j < |slices| ensures SliceName(slices[i]) != SliceName(slices[j]) {
        assert Names(tally)[i] != Names(tally)[j];
      }
    }
    PermutationKeepsKeysDistinct(slices, r, SliceName);
    PermutationMembers(slices, r);
    forall i | 0 <= i < |r|
      ensures r[i].value == CategoryExpense(ts, r[i].name) && r[i].color == ColorFor(cats, r[i].name)
    {
      assert r[i] in slices;
    }
    forall c ensures c in ExpenseCategories(ts) <==> exists i :: 0 <= i < |r| && r[i].name == c {
      if c in ExpenseCategories(ts) {
        var k :| 0 <= k < |tally| && Names(tally)[k] == c;
        assert slices[k] in r;
        var i :| 0 <= i < |r| && r[i] == slices[k];
      }
      if exists i :: 0 <= i < |r| && r[i].name == c {
        var i :| 0 <= i < |r| && r[i].name == c;
        assert r[i] in slices;
        var k :| 0 <= k < |slices| && slices[k] == r[i];
        assert Names(tally)[k] == c;
      }
    }
  }
}
