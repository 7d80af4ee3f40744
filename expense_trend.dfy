/** The monthly expense trend of the reports summary (`monthlyExpenses` and
    `trendData` in src/hooks/useReports.ts): expenses with a date, bucketed
    by `YYYY-MM` month key and split into fixed, variable and other, then
    sorted by key and cut to the last six months. */
module ExpenseTrend {
  import opened Records
  import opened Strings
  import opened Dict

  /** The running totals of one month. */
  datatype Bucket = Bucket(fixa: int, variavel: int, outros: int)

  /** One entry of `trendData`. */
  datatype TrendPoint = TrendPoint(month: string, fixa: int, variavel: int, outros: int)

  /** How many months the trend keeps. */
  const TrendMonths := 6

  /** `${year}-${String(month).padStart(2, '0')}`. */
  function MonthKey(d: LocalDate): (k: string)
    ensures |k| == |NatToString(d.year)| + 3
  {
    TwoDigitPad(d.month);
    NatToString(d.year) + "-" + PadStart(NatToString(d.month), 2, '0')
  }

  /** A month key is the year as written, a dash, and the month as exactly
      two digits. */
  lemma MonthKeyFormat(d: LocalDate)
    ensures MonthKey(d) == NatToString(d.year) + "-" + FixedDigits(d.month, 2)
    ensures |MonthKey(d)| == |NatToString(d.year)| + 3
  {
    TwoDigitPad(d.month);
  }

  /** A string of the form year, dash, two characters splits back into
      its parts. */
  lemma SplitAtDash(y1: string, m1: string, y2: string, m2: string)
    requires |m1| == 2 && |m2| == 2
    requires y1 + "-" + m1 == y2 + "-" + m2
    ensures y1 == y2 && m1 == m2
  {
    var k := y1 + "-" + m1;
    assert m1 == k[|k| - 2..] == m2;
    assert y1 == k[..|k| - 3] == y2;
  }

  /** Different months never share a key. */
  lemma MonthKeyInjective(d1: LocalDate, d2: LocalDate)
    requires MonthKey(d1) == MonthKey(d2)
    ensures d1 == d2
  {
    MonthKeyFormat(d1);
    MonthKeyFormat(d2);
    SplitAtDash(NatToString(d1.year), FixedDigits(d1.month, 2), NatToString(d2.year), FixedDigits(d2.month, 2));
    FixedDigitsOrder(d1.month, d2.month, 2);
    NatToStringInjective(d1.year, d2.year);
  }

  /** For four-digit years, ordinal order of month keys is calendar order,
      so sorting by key sorts chronologically. */
  lemma MonthKeyChronological(d1: LocalDate, d2: LocalDate)
    requires 1000 <= d1.year <= 9999 && 1000 <= d2.year <= 9999
    ensures LexLess(MonthKey(d1), MonthKey(d2)) <==>
      d1.year < d2.year || (d1.year == d2.year && d1.month < d2.month)
  {
    assert Pow10(3) == 1000 && Pow10(4) == 10000 && Pow10(2) == 100;
    NatToStringFixed(d1.year, 4);
    NatToStringFixed(d2.year, 4);
    var y1, y2 := FixedDigits(d1.year, 4), FixedDigits(d2.year, 4);
    var m1, m2 := FixedDigits(d1.month, 2), FixedDigits(d2.month, 2);
    FixedDigitsOrder(d1.year, d2.year, 4);
    FixedDigitsOrder(d1.month, d2.month, 2);
    MonthKeyFormat(d1);
    MonthKeyFormat(d2);
    assert MonthKey(d1) == y1 + ("-" + m1) && MonthKey(d2) == y2 + ("-" + m2);
    LexLessConcat(y1, y2, "-" + m1, "-" + m2);
    LexLessConcat("-", "-", m1, m2);
    LexLessIrreflexive("-");
  }

  /** Which of a month's three totals an expense adds to: `tipo_despesa`,
      or 'outros' when it is absent or empty, compared with 'fixa' and
      'variavel'. */
  datatype Slot = FixaSlot | VariavelSlot | OutrosSlot

  function SlotOf(t: Transaction): (s: Slot)
    ensures s == FixaSlot <==> t.tipoDespesa == Some(Fixa)
    ensures s == VariavelSlot <==> t.tipoDespesa == Some(Variavel)
    ensures s == OutrosSlot <==> t.tipoDespesa != Some(Fixa) && t.tipoDespesa != Some(Variavel)
  {
    var tipoDespesa := if Truthy(t.tipoDespesa) then t.tipoDespesa.value else "outros";
    if tipoDespesa == Fixa then FixaSlot
    else if tipoDespesa == Variavel then VariavelSlot
    else OutrosSlot
  }

  /** The records the trend looks at: expenses with a date. */
  predicate Bucketed(t: Transaction) {
    IsDespesa(t) && t.quando.Some?
  }

  /** A bucketed record goes to the slot of its class in the summary's
      split of expenses: 'fixa', 'variavel' or neither. */
  lemma BucketSlotMatchesSubtype(t: Transaction)
    requires Bucketed(t)
    ensures SlotOf(t) == FixaSlot <==> IsDespesaFixa(t)
    ensures SlotOf(t) == VariavelSlot <==> IsDespesaVariavel(t)
    ensures SlotOf(t) == OutrosSlot <==> IsDespesaSemSubtipo(t)
  {
  }

  /** A bucketed record of the month with key `k`. */
  predicate InMonth(t: Transaction, k: string) {
    Bucketed(t) && MonthKey(t.quando.value) == k
  }

  /** The filter of the records that add to slot `s` of month `k`. */
  function InSlot(k: string, s: Slot): Transaction -> bool {
    t => InMonth(t, k) && SlotOf(t) == s
  }

  /** A month's totals; a month not in the dictionary has none yet. */
  function BucketOf(m: map<string, Bucket>, k: string): Bucket {
    if k in m then m[k] else Bucket(0, 0, 0)
  }

  /** Adds `v` to slot `s` of a month's totals; the other two stay. */
  function AddToSlot(b: Bucket, s: Slot, v: int): (r: Bucket)
    ensures r.fixa + r.variavel + r.outros == b.fixa + b.variavel + b.outros + v
    ensures r.fixa == b.fixa + (if s == FixaSlot then v else 0)
    ensures r.variavel == b.variavel + (if s == VariavelSlot then v else 0)
    ensures r.outros == b.outros + (if s == OutrosSlot then v else 0)
  {
    match s
    case FixaSlot => b.(fixa := b.fixa + v)
    case VariavelSlot => b.(variavel := b.variavel + v)
    case OutrosSlot => b.(outros := b.outros + v)
  }

  /** One step of the `reduce`: add the amount to its month's slot. */
  function AddToMonth(acc: map<string, Bucket>, t: Transaction): map<string, Bucket>
    requires Bucketed(t)
  {
    var key := MonthKey(t.quando.value);
    acc[key := AddToSlot(BucketOf(acc, key), SlotOf(t), Valor(t))]
  }

  /** `monthlyExpenses`: the dictionary the `reduce` builds, as a function of
      the transaction list. */
  function MonthlyExpenses(ts: seq<Transaction>): map<string, Bucket> {
    if ts == [] then map[]
    else
      var acc := MonthlyExpenses(ts[..|ts| - 1]);
      var t := ts[|ts| - 1];
      if Bucketed(t) then AddToMonth(acc, t) else acc
  }

  /** The body of the `reduce` callback for one expense with a date: make
      sure its month has a bucket, then add the amount to the slot of its
      `tipo_despesa`. */
  method AddExpense(acc: map<string, Bucket>, t: Transaction) returns (r: map<string, Bucket>)
    requires Bucketed(t)
    ensures r == AddToMonth(acc, t)
  {
    r := acc;
    var monthKey := MonthKey(t.quando.value);
    var tipoDespesa := if Truthy(t.tipoDespesa) then t.tipoDespesa.value else "outros";
    if monthKey !in r {
      r := r[monthKey := Bucket(0, 0, 0)];
    }
    var b := r[monthKey];
    if tipoDespesa == Fixa {
      r := r[monthKey := b.(fixa := b.fixa + Valor(t))];
    } else if tipoDespesa == Variavel {
      r := r[monthKey := b.(variavel := b.variavel + Valor(t))];
    } else {
      r := r[monthKey := b.(outros := b.outros + Valor(t))];
    }
  }

  /** The `filter` in front of the `reduce`: a record that is not a dated
      'despesa' leaves the dictionary as it is; a dated 'despesa' makes
      sure its month is a key, raises that month's total by its amount and
      leaves every other month alone. */
  lemma MonthlyExpensesAppend(ts: seq<Transaction>, t: Transaction)
    ensures !(t.tipo == Some(Despesa) && t.quando.Some?) ==> MonthlyExpenses(ts + [t]) == MonthlyExpenses(ts)
    ensures t.tipo == Some(Despesa) && t.quando.Some? ==>
      var k := MonthKey(t.quando.value);
      var before, after := MonthlyExpenses(ts), MonthlyExpenses(ts + [t]);
      && after.Keys == before.Keys + {k}
      && after[k].fixa + after[k].variavel + after[k].outros ==
         BucketOf(before, k).fixa + BucketOf(before, k).variavel + BucketOf(before, k).outros + Valor(t)
      && forall j :: j in before && j != k ==> after[j] == before[j]
  {
    assert (ts + [t])[..|ts + [t]| - 1] == ts;
  }

  /** Builds `monthlyExpenses` by updating one dictionary record by record. */
  method BuildMonthlyExpenses(ts: seq<Transaction>) returns (acc: map<string, Bucket>)
    ensures acc == MonthlyExpenses(ts)
  {
    acc := map[];
    for i := 0 to |ts|
      invariant acc == MonthlyExpenses(ts[..i])
    {
      var t := ts[i];
      assert ts[..i + 1][..i] == ts[..i];
      if IsDespesa(t) && t.quando.Some? {
        acc := AddExpense(acc, t);
      }
    }
    assert ts[..|ts|] == ts;
  }

  /** One step of the `reduce` adds the month of the record, if it is
      bucketed, and keeps every month already present. */
  lemma MonthlyExpensesStepKeys(ts: seq<Transaction>)
    requires ts != []
    ensures forall k :: k in MonthlyExpenses(ts) <==>
      k in MonthlyExpenses(ts[..|ts| - 1]) || InMonth(ts[|ts| - 1], k)
  {
  }

  /** A record of month `k` in `p + [t]` is one in `p` or is `t`. */
  lemma InMonthPrefixOrLast(p: seq<Transaction>, t: Transaction, k: string)
    ensures (exists i :: 0 <= i < |p + [t]| && InMonth((p + [t])[i], k)) <==>
      (exists i :: 0 <= i < |p| && InMonth(p[i], k)) || InMonth(t, k)
  {
    var ts := p + [t];
    if exists i :: 0 <= i < |ts| && InMonth(ts[i], k) {
      var i :| 0 <= i < |ts| && InMonth(ts[i], k);
      if i < |p| {
        assert p[i] == ts[i];
      } else {
        assert ts[i] == t;
      }
    }
    if exists i :: 0 <= i < |p| && InMonth(p[i], k) {
      var i :| 0 <= i < |p| && InMonth(p[i], k);
      assert ts[i] == p[i];
    }
    if InMonth(t, k) {
      assert ts[|p|] == t;
    }
  }

  /** The months present are exactly those of the expenses with a date: no
      month is made up and none with an expense is missing. */
  lemma {:induction false} MonthlyExpensesKeys(ts: seq<Transaction>)
    ensures forall k :: k in MonthlyExpenses(ts) <==> exists i :: 0 <= i < |ts| && InMonth(ts[i], k)
  {
    if ts != [] {
      var p, t := ts[..|ts| - 1], ts[|ts| - 1];
      MonthlyExpensesKeys(p);
      MonthlyExpensesStepKeys(ts);
      assert ts == p + [t];
      forall k ensures k in MonthlyExpenses(ts) <==> exists i :: 0 <= i < |ts| && InMonth(ts[i], k) {
        InMonthPrefixOrLast(p, t, k);
      }
    }
  }

  /** Each month's three totals are the sums of the amounts of that month's
      expenses of the matching slot, so every bucketed record adds to
      exactly one total of exactly one month. */
  lemma {:induction false} MonthlyExpensesBucket(ts: seq<Transaction>, k: string)
    ensures BucketOf(MonthlyExpenses(ts), k) ==
      Bucket(Sum(ts, InSlot(k, FixaSlot)), Sum(ts, InSlot(k, VariavelSlot)), Sum(ts, InSlot(k, OutrosSlot)))
  {
    if ts != [] {
      MonthlyExpensesBucket(ts[..|ts| - 1], k);
    }
  }

  /** The three totals of a month, added up. */
  function BucketTotals(m: map<string, Bucket>): map<string, int> {
    map k | k in m :: m[k].fixa + m[k].variavel + m[k].outros
  }

  /** One step of the `reduce` raises its month's total by the amount. */
  lemma BucketTotalsStep(acc: map<string, Bucket>, t: Transaction)
    requires Bucketed(t)
    ensures var b := BucketOf(acc, MonthKey(t.quando.value));
      BucketTotals(AddToMonth(acc, t)) == BucketTotals(acc)[MonthKey(t.quando.value) := b.fixa + b.variavel + b.outros + Valor(t)]
  {
  }

  /** Over all months, the buckets hold the sum of every expense with a
      date: nothing is lost or counted twice before the cut to six months. */
  lemma {:induction false} MonthlyExpensesTotal(ts: seq<Transaction>)
    ensures SumValues(BucketTotals(MonthlyExpenses(ts))) == Sum(ts, Bucketed)
  {
    if ts != [] {
      var p, t := ts[..|ts| - 1], ts[|ts| - 1];
      MonthlyExpensesTotal(p);
      if Bucketed(t) {
        var acc := MonthlyExpenses(p);
        var key := MonthKey(t.quando.value);
        var b := BucketOf(acc, key);
        BucketTotalsStep(acc, t);
        SumValuesUpdate(BucketTotals(acc), key, b.fixa + b.variavel + b.outros + Valor(t));
      }
    }
  }

  // ---------------------------------------------------------------------
  // Sorting and cutting

  /** `a.month.localeCompare(b.month) <= 0`, with ordinal comparison. */
  predicate SortedByMonth(s: seq<TrendPoint>) {
    forall i, j :: 0 <= i < j < |s| ==> !LexLess(s[j].month, s[i].month)
  }

  predicate StrictlyAscending(s: seq<TrendPoint>) {
    forall i, j :: 0 <= i < j < |s| ==> LexLess(s[i].month, s[j].month)
  }

  /** A key below the first of a sorted list is below all of them. */
  lemma BelowHeadBelowAll(p: TrendPoint, s: seq<TrendPoint>)
    requires SortedByMonth(s) && s != [] && LexLess(p.month, s[0].month)
    ensures forall x :: x in s ==> !LexLess(x.month, p.month)
  {
    forall x | x in s ensures !LexLess(x.month, p.month) {
      if x.month != s[0].month {
        LexLessTotal(s[0].month, x.month);
        LexLessTransitive(p.month, s[0].month, x.month);
      }
      LexLessAsymmetric(p.month, x.month);
    }
  }

  /** A point whose key no point of a sorted list is below can go first. */
  lemma ConsSorted(h: TrendPoint, rest: seq<TrendPoint>)
    requires SortedByMonth(rest)
    requires forall x :: x in rest ==> !LexLess(x.month, h.month)
    ensures SortedByMonth([h] + rest)
  {
    var r := [h] + rest;
    forall i, j | 0 <= i < j < |r| ensures !LexLess(r[j].month, r[i].month) {
      assert r[j] == rest[j - 1];
      if i > 0 {
        assert r[i] == rest[i - 1];
      } else {
        assert r[j] in rest;
      }
    }
  }

  /** The tail of a sorted list is sorted. */
  lemma SortedTail(s: seq<TrendPoint>)
    requires SortedByMonth(s) && s != []
    ensures SortedByMonth(s[1..])
  {
    forall i, j | 0 <= i < j < |s| - 1 ensures !LexLess(s[1..][j].month, s[1..][i].month) {
      assert s[1..][i] == s[i + 1] && s[1..][j] == s[j + 1];
    }
  }

  /** Inserting a point that is not below the head of a sorted list into
      its tail gives points none of which is below that head. */
  lemma InsertedNotBelowHead(p: TrendPoint, s: seq<TrendPoint>, rest: seq<TrendPoint>)
    requires SortedByMonth(s) && s != [] && !LexLess(p.month, s[0].month)
    requires multiset(rest) == multiset(s[1..]) + multiset{p}
    ensures forall x :: x in rest ==> !LexLess(x.month, s[0].month)
  {
    forall x | x in rest ensures !LexLess(x.month, s[0].month) {
      assert x in multiset(rest);
      if x != p {
        assert x in s[1..];
        var j :| 0 <= j < |s[1..]| && s[1..][j] == x;
        assert s[j + 1] == x;
      }
    }
  }

  /** Putting the head of a sorted list back in front of its tail with `p`
      inserted gives a sorted list of the same points plus `p`. */
  lemma InsertAfterHead(p: TrendPoint, s: seq<TrendPoint>, rest: seq<TrendPoint>)
    requires SortedByMonth(s) && s != [] && !LexLess(p.month, s[0].month)
    requires SortedByMonth(rest) && multiset(rest) == multiset(s[1..]) + multiset{p}
    ensures SortedByMonth([s[0]] + rest)
    ensures multiset([s[0]] + rest) == multiset(s) + multiset{p}
  {
    assert s == [s[0]] + s[1..];
    InsertedNotBelowHead(p, s, rest);
    ConsSorted(s[0], rest);
  }

  /** Inserts `p` after every point whose key is not greater than its own. */
  function InsertByMonth(p: TrendPoint, s: seq<TrendPoint>): (r: seq<TrendPoint>)
    requires SortedByMonth(s)
    ensures SortedByMonth(r)
    ensures multiset(r) == multiset(s) + multiset{p}
  {
    if s == [] then [p]
    else if LexLess(p.month, s[0].month) then
      BelowHeadBelowAll(p, s);
      ConsSorted(p, s);
      [p] + s
    else
      SortedTail(s);
      var rest := InsertByMonth(p, s[1..]);
      InsertAfterHead(p, s, rest);
      [s[0]] + rest
  }

  /** `sort((a, b) => a.month.localeCompare(b.month))`, as an insertion sort:
      the result is ordered by key and is a permutation of the input. */
  function SortByMonth(s: seq<TrendPoint>): (r: seq<TrendPoint>)
    ensures SortedByMonth(r)
    ensures multiset(r) == multiset(s)
  {
    if s == [] then []
    else
      assert s == s[..|s| - 1] + [s[|s| - 1]];
      InsertByMonth(s[|s| - 1], SortByMonth(s[..|s| - 1]))
  }

  /** `s.slice(-n)`: the last `n` elements, or all of `s` when it is
      shorter. `slice(-0)` is `slice(0)`, so `n = 0` keeps all of `s`. */
  function SliceLast<T>(s: seq<T>, n: nat): (r: seq<T>)
    ensures |r| == if n == 0 || |s| < n then |s| else n
    ensures forall i :: 0 <= i < |r| ==> r[i] == s[|s| - |r| + i]
  {
    var len := if n == 0 || |s| < n then |s| else n;
    seq(len, i requires 0 <= i < len => s[|s| - len + i])
  }

  // ---------------------------------------------------------------------
  // The trend series

  function PointOf(k: string, b: Bucket): TrendPoint {
    TrendPoint(k, b.fixa, b.variavel, b.outros)
  }

  /** Month `k` has a point in the trend. */
  predicate Shown(k: string, trend: seq<TrendPoint>) {
    exists i :: 0 <= i < |trend| && trend[i].month == k
  }

  predicate OlderThanAll(k: string, trend: seq<TrendPoint>) {
    forall i :: 0 <= i < |trend| ==> LexLess(k, trend[i].month)
  }

  /** `trend` is the trend series of the month dictionary `m`: at most six
      points, strictly ascending by key, each carrying its month's totals
      unchanged, and every month left out older than every month shown. */
  predicate IsTrendOf(trend: seq<TrendPoint>, m: map<string, Bucket>) {
    && |trend| == (if |m| < TrendMonths then |m| else TrendMonths)
    && StrictlyAscending(trend)
    && (forall i :: 0 <= i < |trend| ==> trend[i].month in m && trend[i] == PointOf(trend[i].month, m[trend[i].month]))
    && (forall k :: k in m && !Shown(k, trend) ==> OlderThanAll(k, trend))
  }

  ghost predicate Distinct<T>(s: seq<T>) {
    forall i, j :: 0 <= i < j < |s| ==> s[i] != s[j]
  }

  lemma {:induction false} DistinctCount<T>(s: seq<T>, x: T)
    requires Distinct(s)
    ensures multiset(s)[x] == if x in s then 1 else 0
  {
    if s != [] {
      var p := s[..|s| - 1];
      assert s == p + [s[|s| - 1]];
      assert Distinct(p);
      DistinctCount(p, x);
    }
  }

  /** A permutation of a list without repeats has no repeats. */
  lemma DistinctPermutation<T>(s: seq<T>, r: seq<T>)
    requires Distinct(s) && multiset(s) == multiset(r)
    ensures Distinct(r)
  {
    forall i, j | 0 <= i < j < |r| ensures r[i] != r[j] {
      CountOfTwoPositions(r, i, j);
      DistinctCount(s, r[i]);
    }
  }

  /** A value at two positions of a list occurs at least twice in it. */
  lemma CountOfTwoPositions<T>(r: seq<T>, i: int, j: int)
    requires 0 <= i < j < |r|
    ensures r[i] == r[j] ==> multiset(r)[r[i]] >= 2
  {
    assert r == r[..j] + r[j..];
    assert r[..j][i] == r[i] && r[j..][0] == r[j];
  }

  /** Points of different months ordered by key are strictly ascending. */
  lemma SortedDistinctKeysAscending(m: map<string, Bucket>, sorted: seq<TrendPoint>)
    requires SortedByMonth(sorted) && Distinct(sorted)
    requires forall x :: x in sorted ==> x.month in m && x == PointOf(x.month, m[x.month])
    ensures StrictlyAscending(sorted)
  {
    forall i, j | 0 <= i < j < |sorted| ensures LexLess(sorted[i].month, sorted[j].month) {
      var a, b := sorted[i], sorted[j];
      assert a in sorted && b in sorted;
      assert a != b;
      assert a.month != b.month;
      LexLessTotal(a.month, b.month);
    }
  }

  /** The last `n` points of a strictly ascending list are strictly
      ascending. */
  lemma SuffixAscending(sorted: seq<TrendPoint>, n: nat)
    requires StrictlyAscending(sorted)
    ensures StrictlyAscending(SliceLast(sorted, n))
  {
    var trend := SliceLast(sorted, n);
    var start := |sorted| - |trend|;
    forall i, j | 0 <= i < j < |trend| ensures LexLess(trend[i].month, trend[j].month) {
      assert trend[i] == sorted[start + i] && trend[j] == sorted[start + j];
    }
  }

  /** In a strictly ascending list, the month of every point is either among
      the last `n` or older than each of them. */
  lemma ShownOrOlder(sorted: seq<TrendPoint>, n: nat, j: int)
    requires StrictlyAscending(sorted)
    requires 0 <= j < |sorted|
    ensures Shown(sorted[j].month, SliceLast(sorted, n)) || OlderThanAll(sorted[j].month, SliceLast(sorted, n))
  {
    var trend := SliceLast(sorted, n);
    var start := |sorted| - |trend|;
    if j >= start {
      assert trend[j - start] == sorted[j];
    } else {
      forall i | 0 <= i < |trend| ensures LexLess(sorted[j].month, trend[i].month) {
        assert trend[i] == sorted[start + i];
      }
    }
  }

  /** Every point of the last `n` is a point of the whole list. */
  lemma SuffixPoints(m: map<string, Bucket>, sorted: seq<TrendPoint>, n: nat)
    requires forall x :: x in sorted ==> x.month in m && x == PointOf(x.month, m[x.month])
    ensures forall x :: x in SliceLast(sorted, n) ==> x.month in m && x == PointOf(x.month, m[x.month])
  {
  }

  /** A list of month points without repeats, ordered by key, holding
      exactly one point per month of `m` with that month's totals: its last
      six points are the trend of `m`. */
  lemma SortedPointsGiveTrend(m: map<string, Bucket>, sorted: seq<TrendPoint>)
    requires SortedByMonth(sorted) && Distinct(sorted) && |sorted| == |m|
    requires forall x :: x in sorted ==> x.month in m && x == PointOf(x.month, m[x.month])
    requires forall k :: k in m ==> exists j :: 0 <= j < |sorted| && sorted[j].month == k
    ensures IsTrendOf(SliceLast(sorted, TrendMonths), m)
  {
    var trend := SliceLast(sorted, TrendMonths);
    SortedDistinctKeysAscending(m, sorted);
    SuffixAscending(sorted, TrendMonths);
    SuffixPoints(m, sorted, TrendMonths);
    forall k | k in m && !Shown(k, trend) ensures OlderThanAll(k, trend) {
      var j :| 0 <= j < |sorted| && sorted[j].month == k;
      ShownOrOlder(sorted, TrendMonths, j);
    }
    forall i | 0 <= i < |trend| ensures trend[i].month in m && trend[i] == PointOf(trend[i].month, m[trend[i].month]) {
      assert trend[i] in trend;
    }
  }

  /** Sorting the points made from the entries of `m` keeps one point per
      month, with no repeats. */
  lemma SortedEntriesArePoints(m: map<string, Bucket>, entries: seq<(string, Bucket)>, points: seq<TrendPoint>, sorted: seq<TrendPoint>)
    requires |entries| == |m|
    requires forall i :: 0 <= i < |entries| ==> entries[i].0 in m && m[entries[i].0] == entries[i].1
    requires forall i, j :: 0 <= i < j < |entries| ==> entries[i].0 != entries[j].0
    requires forall k :: k in m ==> exists i :: 0 <= i < |entries| && entries[i].0 == k
    requires |points| == |entries| && forall i :: 0 <= i < |entries| ==> points[i] == PointOf(entries[i].0, entries[i].1)
    requires multiset(sorted) == multiset(points)
    ensures Distinct(sorted) && |sorted| == |m|
    ensures forall x :: x in sorted ==> x.month in m && x == PointOf(x.month, m[x.month])
    ensures forall k :: k in m ==> exists j :: 0 <= j < |sorted| && sorted[j].month == k
  {
    assert Distinct(points);
    DistinctPermutation(points, sorted);
    assert |sorted| == |m| by {
      assert |multiset(sorted)| == |multiset(points)|;
    }
    forall x | x in sorted ensures x.month in m && x == PointOf(x.month, m[x.month]) {
      assert x in multiset(points);
    }
    forall k | k in m ensures exists j :: 0 <= j < |sorted| && sorted[j].month == k {
      var i :| 0 <= i < |entries| && entries[i].0 == k;
      assert points[i] in multiset(sorted);
      var j :| 0 <= j < |sorted| && sorted[j] == points[i];
    }
  }

  /** The `map` from dictionary entries to trend points. */
  function PointsOf(entries: seq<(string, Bucket)>): (points: seq<TrendPoint>)
    ensures |points| == |entries|
    ensures forall i :: 0 <= i < |entries| ==> points[i] == PointOf(entries[i].0, entries[i].1)
  {
    seq(|entries|, i requires 0 <= i < |entries| => PointOf(entries[i].0, entries[i].1))
  }

  /** The entries of `m`, in any order, turned into points, sorted and cut
      give the trend of `m`. */
  lemma EntriesGiveTrend(m: map<string, Bucket>, entries: seq<(string, Bucket)>)
    requires |entries| == |m|
    requires forall i :: 0 <= i < |entries| ==> entries[i].0 in m && m[entries[i].0] == entries[i].1
    requires forall i, j :: 0 <= i < j < |entries| ==> entries[i].0 != entries[j].0
    requires forall k :: k in m ==> exists i :: 0 <= i < |entries| && entries[i].0 == k
    ensures IsTrendOf(SliceLast(SortByMonth(PointsOf(entries)), TrendMonths), m)
  {
    var points := PointsOf(entries);
    var sorted := SortByMonth(points);
    SortedEntriesArePoints(m, entries, points, sorted);
    SortedPointsGiveTrend(m, sorted);
  }

  /** `trendData`: the buckets turned into points, sorted by month key and
      cut to the last six. */
  method ComputeTrend(ts: seq<Transaction>) returns (trend: seq<TrendPoint>)
    ensures IsTrendOf(trend, MonthlyExpenses(ts))
  {
    var monthly := BuildMonthlyExpenses(ts);
    var entries := Entries(monthly);
    var points := PointsOf(entries);
    var sorted := SortByMonth(points);
    trend := SliceLast(sorted, TrendMonths);
    EntriesGiveTrend(monthly, entries);
  }

  /** An empty dictionary of months gives an empty trend. */
  lemma TrendOfNoMonths(trend: seq<TrendPoint>)
    requires IsTrendOf(trend, map[])
    ensures trend == []
  {
  }
}
