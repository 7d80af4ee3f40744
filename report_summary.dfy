/** The report summary (`summaryData` in src/hooks/useReports.ts): the totals
    by kind and expense subtype, the per-category breakdown, the two-slice
    chart series, the monthly expense trend and the record count. */
module ReportSummary {
  import opened Records
  import opened Dict
  import opened ExpenseTrend

  /** One entry of `byCategory`. */
  datatype GroupTotals = GroupTotals(receitas: int, despesas: int, total: int)

  /** One entry of `chartData`. */
  datatype ChartSlice = ChartSlice(name: string, value: int, color: string)

  /** The object `summaryData` returns. */
  datatype Summary = Summary(
    receitas: int,
    despesas: int,
    saldo: int,
    despesasFixas: int,
    despesasVariaveis: int,
    byCategory: map<string, GroupTotals>,
    chartData: seq<ChartSlice>,
    trendData: seq<TrendPoint>,
    totalTransactions: nat)

  // ---------------------------------------------------------------------
  // Grouping by category

  /** A category's totals; a category not in the dictionary has none yet. */
  function GroupOf(m: map<string, GroupTotals>, name: string): GroupTotals {
    if name in m then m[name] else GroupTotals(0, 0, 0)
  }

  /** One step of the `byCategory` reduce: the amount goes to the income
      column of the record's category when its kind is exactly 'receita', to
      the expense column otherwise, and the group's total is recomputed. */
  function AddToGroup(acc: map<string, GroupTotals>, t: Transaction): map<string, GroupTotals> {
    var name := CategoryName(t);
    var g := GroupOf(acc, name);
    var g' := if IsReceita(t) then g.(receitas := g.receitas + Valor(t)) else g.(despesas := g.despesas + Valor(t));
    acc[name := g'.(total := g'.receitas - g'.despesas)]
  }

  /** `byCategory`: the dictionary the `reduce` builds, as a function of the
      transaction list. */
  function ByCategory(ts: seq<Transaction>): map<string, GroupTotals> {
    if ts == [] then map[] else AddToGroup(ByCategory(ts[..|ts| - 1]), ts[|ts| - 1])
  }

  /** The body of the `reduce` callback for one record: make sure its
      category has a group, add the amount to one column and recompute the
      total. */
  method AddToCategory(acc: map<string, GroupTotals>, t: Transaction) returns (r: map<string, GroupTotals>)
    ensures r == AddToGroup(acc, t)
  {
    r := acc;
    var categoryName := CategoryName(t);
    var valor := Valor(t);
    if categoryName !in r {
      r := r[categoryName := GroupTotals(0, 0, 0)];
    }
    var g := r[categoryName];
    if t.tipo == Some(Receita) {
      g := g.(receitas := g.receitas + valor);
    } else {
      g := g.(despesas := g.despesas + valor);
    }
    r := r[categoryName := g.(total := g.receitas - g.despesas)];
  }

  /** Builds `byCategory` by updating one dictionary record by record. */
  method GroupByCategory(ts: seq<Transaction>) returns (acc: map<string, GroupTotals>)
    ensures acc == ByCategory(ts)
  {
    acc := map[];
    for i := 0 to |ts|
      invariant acc == ByCategory(ts[..i])
    {
      assert ts[..i + 1][..i] == ts[..i];
      acc := AddToCategory(acc, ts[i]);
    }
    assert ts[..|ts|] == ts;
  }

  /** The records of category `name` that add to its income column. */
  function ReceitaIn(name: string): Transaction -> bool {
    t => CategoryName(t) == name && IsReceita(t)
  }

  /** The records of category `name` that add to its expense column: every
      kind but 'receita', including none and unknown ones. */
  function DespesaSideIn(name: string): Transaction -> bool {
    t => CategoryName(t) == name && !IsReceita(t)
  }

  /** One step of the `reduce` adds the record's category and keeps every
      category already present. */
  lemma ByCategoryStepKeys(ts: seq<Transaction>)
    requires ts != []
    ensures forall k :: k in ByCategory(ts) <==> k in ByCategory(ts[..|ts| - 1]) || k == CategoryName(ts[|ts| - 1])
  {
  }

  /** The groups are exactly the labels of the records: every record has a
      group, and no group exists without a record. */
  lemma {:induction false} ByCategoryKeys(ts: seq<Transaction>)
    ensures forall k :: k in ByCategory(ts) <==> exists i :: 0 <= i < |ts| && CategoryName(ts[i]) == k
  {
    if ts != [] {
      var p := ts[..|ts| - 1];
      ByCategoryKeys(p);
      ByCategoryStepKeys(ts);
      forall k ensures k in ByCategory(ts) <==> exists i :: 0 <= i < |ts| && CategoryName(ts[i]) == k {
        if exists i :: 0 <= i < |ts| && CategoryName(ts[i]) == k {
          var i :| 0 <= i < |ts| && CategoryName(ts[i]) == k;
          if i < |p| {
            assert p[i] == ts[i];
          }
        }
        if k in ByCategory(p) {
          var i :| 0 <= i < |p| && CategoryName(p[i]) == k;
          assert ts[i] == p[i];
        }
      }
    }
  }

  /** Each group holds the sum of its records' income, the sum of the rest
      of its records' amounts as expense, and their difference as total: so
      every record adds to exactly one column of exactly one group. */
  lemma {:induction false} ByCategoryGroup(ts: seq<Transaction>, name: string)
    ensures GroupOf(ByCategory(ts), name) ==
      GroupTotals(Sum(ts, ReceitaIn(name)), Sum(ts, DespesaSideIn(name)),
                  Sum(ts, ReceitaIn(name)) - Sum(ts, DespesaSideIn(name)))
  {
    if ts != [] {
      ByCategoryGroup(ts[..|ts| - 1], name);
    }
  }

  /** The income column of the breakdown. */
  function ReceitasColumn(m: map<string, GroupTotals>): map<string, int> {
    map k | k in m :: m[k].receitas
  }

  /** The expense column of the breakdown. */
  function DespesasColumn(m: map<string, GroupTotals>): map<string, int> {
    map k | k in m :: m[k].despesas
  }

  /** The income columns of all groups add up to the income total. */
  lemma {:induction false} ByCategoryReceitasTotal(ts: seq<Transaction>)
    ensures SumValues(ReceitasColumn(ByCategory(ts))) == Sum(ts, IsReceita)
  {
    if ts != [] {
      var p, t := ts[..|ts| - 1], ts[|ts| - 1];
      ByCategoryReceitasTotal(p);
      var acc := ByCategory(p);
      var name := CategoryName(t);
      var v := GroupOf(acc, name).receitas + (if IsReceita(t) then Valor(t) else 0);
      assert ReceitasColumn(AddToGroup(acc, t)) == ReceitasColumn(acc)[name := v];
      SumValuesUpdate(ReceitasColumn(acc), name, v);
    }
  }

  /** A record whose kind is not exactly 'receita'. */
  predicate NotReceita(t: Transaction) {
    !IsReceita(t)
  }

  /** The expense columns of all groups add up to the amounts of every
      record that is not exactly 'receita'. */
  lemma {:induction false} ByCategoryDespesasSide(ts: seq<Transaction>)
    ensures SumValues(DespesasColumn(ByCategory(ts))) == Sum(ts, NotReceita)
  {
    if ts != [] {
      var p, t := ts[..|ts| - 1], ts[|ts| - 1];
      ByCategoryDespesasSide(p);
      var acc := ByCategory(p);
      var name := CategoryName(t);
      var v := GroupOf(acc, name).despesas + (if IsReceita(t) then 0 else Valor(t));
      assert DespesasColumn(AddToGroup(acc, t)) == DespesasColumn(acc)[name := v];
      SumValuesUpdate(DespesasColumn(acc), name, v);
    }
  }

  /** The expense columns of all groups add up to more than the expense
      total: they also hold the records whose kind is neither 'receita' nor
      'despesa'. */
  lemma ByCategoryDespesasTotal(ts: seq<Transaction>)
    ensures SumValues(DespesasColumn(ByCategory(ts))) == Sum(ts, IsDespesa) + Sum(ts, IsOtherKind)
  {
    ByCategoryDespesasSide(ts);
    SumSplit(ts, NotReceita, IsDespesa, IsOtherKind);
  }

  // ---------------------------------------------------------------------
  // Totals

  /** The expense total is the fixed total, the variable total and the
      expenses with no recognised subtype. */
  lemma ExpenseSubtypeSplit(ts: seq<Transaction>)
    ensures Sum(ts, IsDespesa) == Sum(ts, IsDespesaFixa) + Sum(ts, IsDespesaVariavel) + Sum(ts, IsDespesaSemSubtipo)
  {
    SumSplit(ts, IsDespesa, IsDespesaFixa, IsDespesaWithoutFixa);
    SumSplit(ts, IsDespesaWithoutFixa, IsDespesaVariavel, IsDespesaSemSubtipo);
  }

  /** An expense that is not fixed. */
  predicate IsDespesaWithoutFixa(t: Transaction) {
    IsDespesa(t) && !IsDespesaFixa(t)
  }

  /** When every expense amount has the same sign, the fixed and variable
      totals together are at most the magnitude of the expense total. */
  lemma FixedPlusVariableBounded(ts: seq<Transaction>)
    requires (forall i :: 0 <= i < |ts| && IsDespesa(ts[i]) ==> Valor(ts[i]) >= 0)
          || (forall i :: 0 <= i < |ts| && IsDespesa(ts[i]) ==> Valor(ts[i]) <= 0)
    ensures Sum(ts, IsDespesaFixa) + Sum(ts, IsDespesaVariavel) <= Abs(Sum(ts, IsDespesa))
  {
    ExpenseSubtypeSplit(ts);
    if forall i :: 0 <= i < |ts| && IsDespesa(ts[i]) ==> Valor(ts[i]) >= 0 {
      SignedSum(ts, IsDespesaSemSubtipo, true);
      SignedSum(ts, IsDespesa, true);
    } else {
      SignedSum(ts, IsDespesaFixa, false);
      SignedSum(ts, IsDespesaVariavel, false);
      SignedSum(ts, IsDespesaSemSubtipo, false);
    }
  }

  /** A sum over expenses all of one sign has that sign. */
  lemma {:induction false} SignedSum(ts: seq<Transaction>, p: Transaction -> bool, nonNegative: bool)
    requires forall t :: p(t) ==> IsDespesa(t)
    requires forall i :: 0 <= i < |ts| && IsDespesa(ts[i]) ==> (if nonNegative then Valor(ts[i]) >= 0 else Valor(ts[i]) <= 0)
    ensures if nonNegative then Sum(ts, p) >= 0 else Sum(ts, p) <= 0
  {
    if ts != [] {
      SignedSum(ts[..|ts| - 1], p, nonNegative);
    }
  }

  /** With expense amounts of both signs the bound fails: a fixed expense of
      100 and an expense of -50 with no subtype give a fixed total of 100
      against an expense total of 50. */
  lemma FixedPlusVariableUnbounded()
    ensures var ts := [
              Transaction(1, None, None, Some(100), Some(Despesa), Some(Fixa), "c", None),
              Transaction(2, None, None, Some(-50), Some(Despesa), None, "c", None)];
            Sum(ts, IsDespesaFixa) + Sum(ts, IsDespesaVariavel) > Abs(Sum(ts, IsDespesa))
  {
    var ts := [
      Transaction(1, None, None, Some(100), Some(Despesa), Some(Fixa), "c", None),
      Transaction(2, None, None, Some(-50), Some(Despesa), None, "c", None)];
    var first := ts[..1];
    assert first[..0] == [];
    assert Sum(first, IsDespesaFixa) == 100 && Sum(first, IsDespesaVariavel) == 0 && Sum(first, IsDespesa) == 100;
    assert ts[..|ts| - 1] == first;
    assert Sum(ts, IsDespesaFixa) == 100 && Sum(ts, IsDespesaVariavel) == 0 && Sum(ts, IsDespesa) == 50;
  }

  // ---------------------------------------------------------------------
  // The summary

  /** The two slices of `chartData`, in this order. */
  function ChartData(receitas: int, despesas: int): (slices: seq<ChartSlice>)
    ensures |slices| == 2
    ensures slices[0].name == "Receitas" && slices[0].value == receitas
    ensures slices[1].name == "Despesas" && slices[1].value == despesas
  {
    [ChartSlice("Receitas", receitas, "#22c55e"), ChartSlice("Despesas", despesas, "#ef4444")]
  }

  /** `s` is the summary of `ts`: income and expense totals count exactly
      'receita' and exactly 'despesa', the balance is their difference, the
      subtype totals count expenses of exactly 'fixa' and 'variavel', the
      breakdown and the trend are those of `ts`, and the count is the length
      of the whole list. */
  predicate IsSummaryOf(s: Summary, ts: seq<Transaction>) {
    && s.receitas == Sum(ts, IsReceita)
    && s.despesas == Sum(ts, IsDespesa)
    && s.saldo == s.receitas - s.despesas
    && s.despesasFixas == Sum(ts, IsDespesaFixa)
    && s.despesasVariaveis == Sum(ts, IsDespesaVariavel)
    && s.byCategory == ByCategory(ts)
    && s.chartData == ChartData(s.receitas, s.despesas)
    && IsTrendOf(s.trendData, MonthlyExpenses(ts))
    && s.totalTransactions == |ts|
  }

  /** `summaryData`. */
  method ComputeSummary(ts: seq<Transaction>) returns (s: Summary)
    ensures IsSummaryOf(s, ts)
  {
    var receitas := Sum(ts, IsReceita);
    var despesas := Sum(ts, IsDespesa);
    var saldo := receitas - despesas;
    var despesasFixas := Sum(ts, IsDespesaFixa);
    var despesasVariaveis := Sum(ts, IsDespesaVariavel);
    var byCategory := GroupByCategory(ts);
    var chartData := ChartData(receitas, despesas);
    var trendData := ComputeTrend(ts);
    s := Summary(receitas, despesas, saldo, despesasFixas, despesasVariaveis,
                 byCategory, chartData, trendData, |ts|);
  }

  /** The summary's totals against its breakdown: the income columns add up
      to the income total, the expense columns to the expense total plus the
      records of no known kind, and the expense total splits into fixed,
      variable and unclassified expenses. */
  lemma SummaryExpenseSide(s: Summary, ts: seq<Transaction>)
    requires IsSummaryOf(s, ts)
    ensures SumValues(ReceitasColumn(s.byCategory)) == s.receitas
    ensures SumValues(DespesasColumn(s.byCategory)) == s.despesas + Sum(ts, IsOtherKind)
    ensures s.despesas == s.despesasFixas + s.despesasVariaveis + Sum(ts, IsDespesaSemSubtipo)
  {
    ByCategoryReceitasTotal(ts);
    ByCategoryDespesasTotal(ts);
    ExpenseSubtypeSplit(ts);
  }

  /** No records: every total is zero and the breakdown, the trend and the
      count are empty. */
  lemma EmptySummary(s: Summary)
    requires IsSummaryOf(s, [])
    ensures s.receitas == 0 && s.despesas == 0 && s.saldo == 0
    ensures s.despesasFixas == 0 && s.despesasVariaveis == 0
    ensures s.byCategory == map[] && s.trendData == [] && s.totalTransactions == 0
  {
    TrendOfNoMonths(s.trendData);
  }
}
