/** The dashboard's aggregation helpers (src/components/dashboard/DashboardCharts.tsx):
    the bar series per category, the three-slice pie series and the summary
    statistics. They total the same records as the report summary under
    different rules, and the lemmas here state where the two agree and where
    they do not. */
module DashboardCharts {
  import opened Records
  import opened Dict
  import opened ReportSummary

  // ---------------------------------------------------------------------
  // Bar series: fixed and variable expenses per category

  /** The running totals of one category in `getChartData`. */
  datatype BarTotals = BarTotals(despesasFixas: int, despesasVariaveis: int)

  /** One bar of the series. */
  datatype BarRow = BarRow(categoria: string, despesasFixas: int, despesasVariaveis: int)

  /** `t.categorias?.nome && t.valor && t.tipo === 'despesa'`: an expense
      with a category name and a present, non-zero amount. Such a record
      is filed under the same label as in the report breakdown; and every
      expense with a non-zero amount that the breakdown files under a named
      category qualifies. */
  predicate QualifiesForBar(t: Transaction)
    ensures QualifiesForBar(t) ==> IsDespesa(t) && Abs(Valor(t)) > 0 && t.categorias.Some? && CategoryName(t) == t.categorias.value.nome
    ensures IsDespesa(t) && Valor(t) != 0 && CategoryName(t) != SemCategoria ==> QualifiesForBar(t)
  {
    && t.categorias.Some? && t.categorias.value.nome != ""
    && t.valor.Some? && t.valor.value != 0
    && IsDespesa(t)
  }

  /** A category's bar totals; a category not in the dictionary has none. */
  function BarOf(m: map<string, BarTotals>, name: string): BarTotals {
    if name in m then m[name] else BarTotals(0, 0)
  }

  /** One step of the `forEach`: a qualifying record makes sure its category
      has an entry, then adds its magnitude to the fixed or the variable
      total, or to neither when its subtype is something else. */
  function AddToBar(acc: map<string, BarTotals>, t: Transaction): map<string, BarTotals>
    requires QualifiesForBar(t)
  {
    var name := t.categorias.value.nome;
    var b := BarOf(acc, name);
    acc[name :=
      if t.tipoDespesa == Some(Fixa) then b.(despesasFixas := b.despesasFixas + Abs(t.valor.value))
      else if t.tipoDespesa == Some(Variavel) then b.(despesasVariaveis := b.despesasVariaveis + Abs(t.valor.value))
      else b]
  }

  /** The `categorias` dictionary after the `forEach`, as a function of the
      transaction list. */
  function BarCategories(ts: seq<Transaction>): map<string, BarTotals> {
    if ts == [] then map[]
    else
      var acc := BarCategories(ts[..|ts| - 1]);
      var t := ts[|ts| - 1];
      if QualifiesForBar(t) then AddToBar(acc, t) else acc
  }

  /** The body of the `forEach` callback for a qualifying record. */
  method AddToBarCategory(acc: map<string, BarTotals>, t: Transaction) returns (r: map<string, BarTotals>)
    requires QualifiesForBar(t)
    ensures r == AddToBar(acc, t)
  {
    r := acc;
    var nome := t.categorias.value.nome;
    if nome !in r {
      r := r[nome := BarTotals(0, 0)];
    }
    var b := r[nome];
    if t.tipoDespesa == Some(Fixa) {
      r := r[nome := b.(despesasFixas := b.despesasFixas + Abs(t.valor.value))];
    } else if t.tipoDespesa == Some(Variavel) {
      r := r[nome := b.(despesasVariaveis := b.despesasVariaveis + Abs(t.valor.value))];
    }
  }

  /** Fills the `categorias` dictionary record by record. */
  method FillBarCategories(ts: seq<Transaction>) returns (categorias: map<string, BarTotals>)
    ensures categorias == BarCategories(ts)
  {
    categorias := map[];
    for i := 0 to |ts|
      invariant categorias == BarCategories(ts[..i])
    {
      var t := ts[i];
      assert ts[..i + 1][..i] == ts[..i];
      if t.categorias.Some? && t.categorias.value.nome != "" && t.valor.Some? && t.valor.value != 0 && t.tipo == Some(Despesa) {
        categorias := AddToBarCategory(categorias, t);
      }
    }
    assert ts[..|ts|] == ts;
  }

  /** `rows` is the bar series of the dictionary `m`: one row per category,
      no category twice, each row carrying its category's totals. */
  predicate IsBarDataOf(rows: seq<BarRow>, m: map<string, BarTotals>) {
    && |rows| == |m|
    && (forall i :: 0 <= i < |rows| ==>
          (rows[i].categoria in m && m[rows[i].categoria] == BarTotals(rows[i].despesasFixas, rows[i].despesasVariaveis)))
    && (forall i, j :: 0 <= i < j < |rows| ==> rows[i].categoria != rows[j].categoria)
    && (forall k :: k in m ==> exists i :: 0 <= i < |rows| && rows[i].categoria == k)
  }

  /** `getChartData`: the dictionary's entries turned into rows. */
  method GetChartData(ts: seq<Transaction>) returns (rows: seq<BarRow>)
    ensures IsBarDataOf(rows, BarCategories(ts))
  {
    var categorias := FillBarCategories(ts);
    var entries := Entries(categorias);
    rows := seq(|entries|, i requires 0 <= i < |entries| =>
      BarRow(entries[i].0, entries[i].1.despesasFixas, entries[i].1.despesasVariaveis));
    forall k | k in categorias ensures exists i :: 0 <= i < |rows| && rows[i].categoria == k {
      var i :| 0 <= i < |entries| && entries[i].0 == k;
      assert rows[i].categoria == k;
    }
  }

  /** One step of the `forEach` adds the category of a qualifying record and
      keeps every category already present. */
  lemma BarCategoriesStepKeys(ts: seq<Transaction>)
    requires ts != []
    ensures forall k :: k in BarCategories(ts) <==>
      k in BarCategories(ts[..|ts| - 1]) || (QualifiesForBar(ts[|ts| - 1]) && ts[|ts| - 1].categorias.value.nome == k)
  {
  }

  /** The categories of the bar series are exactly the names of the
      qualifying records: a record without a category name, without a
      non-zero amount, or not an expense never creates a bar. */
  lemma {:induction false} BarCategoriesKeys(ts: seq<Transaction>)
    ensures forall k :: k in BarCategories(ts) <==>
      exists i :: 0 <= i < |ts| && QualifiesForBar(ts[i]) && ts[i].categorias.value.nome == k
  {
    if ts != [] {
      var p := ts[..|ts| - 1];
      BarCategoriesKeys(p);
      BarCategoriesStepKeys(ts);
      forall k ensures k in BarCategories(ts) <==>
        exists i :: 0 <= i < |ts| && QualifiesForBar(ts[i]) && ts[i].categorias.value.nome == k
      {
        if exists i :: 0 <= i < |ts| && QualifiesForBar(ts[i]) && ts[i].categorias.value.nome == k {
          var i :| 0 <= i < |ts| && QualifiesForBar(ts[i]) && ts[i].categorias.value.nome == k;
          if i < |p| {
            assert p[i] == ts[i];
          }
        }
        if k in BarCategories(p) {
          var i :| 0 <= i < |p| && QualifiesForBar(p[i]) && p[i].categorias.value.nome == k;
          assert ts[i] == p[i];
        }
      }
    }
  }

  /** There is never a bar for the empty name. */
  lemma NoBarForEmptyName(ts: seq<Transaction>)
    ensures "" !in BarCategories(ts)
  {
    BarCategoriesKeys(ts);
  }

  /** The qualifying records of category `name` with subtype exactly 'fixa'. */
  function FixaBarIn(name: string): Transaction -> bool {
    t => QualifiesForBar(t) && t.categorias.value.nome == name && t.tipoDespesa == Some(Fixa)
  }

  /** The qualifying records of category `name` with subtype exactly
      'variavel'. */
  function VariavelBarIn(name: string): Transaction -> bool {
    t => QualifiesForBar(t) && t.categorias.value.nome == name && t.tipoDespesa == Some(Variavel)
  }

  /** Each category's bar totals are the sums of the magnitudes of its fixed
      and of its variable qualifying expenses, so neither is ever negative. */
  lemma {:induction false} BarCategoriesValues(ts: seq<Transaction>, name: string)
    ensures BarOf(BarCategories(ts), name) == BarTotals(SumAbs(ts, FixaBarIn(name)), SumAbs(ts, VariavelBarIn(name)))
    ensures BarOf(BarCategories(ts), name).despesasFixas >= 0 && BarOf(BarCategories(ts), name).despesasVariaveis >= 0
  {
    if ts != [] {
      BarCategoriesValues(ts[..|ts| - 1], name);
    }
    SumAbsNonNegative(ts, FixaBarIn(name));
    SumAbsNonNegative(ts, VariavelBarIn(name));
  }

  /** A qualifying expense whose subtype is neither 'fixa' nor 'variavel'
      still creates its category's bar, and adds nothing to it. */
  lemma UnknownSubtypeMakesBar(ts: seq<Transaction>, t: Transaction)
    requires QualifiesForBar(t) && t.tipoDespesa != Some(Fixa) && t.tipoDespesa != Some(Variavel)
    ensures t.categorias.value.nome in BarCategories(ts + [t])
    ensures BarOf(BarCategories(ts + [t]), t.categorias.value.nome) == BarOf(BarCategories(ts), t.categorias.value.nome)
  {
    assert (ts + [t])[..|ts + [t]| - 1] == ts;
  }

  /** The qualifying records with subtype exactly 'fixa'. */
  predicate FixaBar(t: Transaction) {
    QualifiesForBar(t) && t.tipoDespesa == Some(Fixa)
  }

  /** When every fixed expense has a category name and a non-negative
      amount, the bars' fixed totals hold the same amount as the fixed total
      of the summary; otherwise the bars leave out the uncategorised ones and
      count refunds as spending. */
  lemma BarFixedAgreesWithSummary(ts: seq<Transaction>)
    requires forall i :: 0 <= i < |ts| && IsDespesaFixa(ts[i]) ==>
      ts[i].categorias.Some? && ts[i].categorias.value.nome != "" && Valor(ts[i]) >= 0
    ensures SumAbs(ts, FixaBar) == Sum(ts, IsDespesaFixa)
  {
    SumAbsOfNonNegative(ts, FixaBar);
    SumCongruent(ts, FixaBar, IsDespesaFixa);
  }

  /** The fixed totals of all bars add up to the magnitudes of the
      qualifying fixed expenses. */
  lemma {:induction false} BarFixedTotal(ts: seq<Transaction>)
    ensures SumValues(FixasColumn(BarCategories(ts))) == SumAbs(ts, FixaBar)
  {
    if ts != [] {
      var p, t := ts[..|ts| - 1], ts[|ts| - 1];
      BarFixedTotal(p);
      if QualifiesForBar(t) {
        var acc := BarCategories(p);
        var name := t.categorias.value.nome;
        var v := BarOf(acc, name).despesasFixas + (if t.tipoDespesa == Some(Fixa) then Abs(t.valor.value) else 0);
        assert FixasColumn(AddToBar(acc, t)) == FixasColumn(acc)[name := v];
        SumValuesUpdate(FixasColumn(acc), name, v);
      }
    }
  }

  /** The fixed column of the bar dictionary. */
  function FixasColumn(m: map<string, BarTotals>): map<string, int> {
    map k | k in m :: m[k].despesasFixas
  }

  /** The qualifying records with subtype exactly 'variavel'. */
  predicate VariavelBar(t: Transaction) {
    QualifiesForBar(t) && t.tipoDespesa == Some(Variavel)
  }

  /** The variable column of the bar dictionary. */
  function VariaveisColumn(m: map<string, BarTotals>): map<string, int> {
    map k | k in m :: m[k].despesasVariaveis
  }

  /** The variable totals of all bars add up to the magnitudes of the
      qualifying variable expenses. */
  lemma {:induction false} BarVariableTotal(ts: seq<Transaction>)
    ensures SumValues(VariaveisColumn(BarCategories(ts))) == SumAbs(ts, VariavelBar)
  {
    if ts != [] {
      var p, t := ts[..|ts| - 1], ts[|ts| - 1];
      BarVariableTotal(p);
      if QualifiesForBar(t) {
        var acc := BarCategories(p);
        var name := t.categorias.value.nome;
        var v := BarOf(acc, name).despesasVariaveis + (if t.tipoDespesa == Some(Variavel) then Abs(t.valor.value) else 0);
        assert VariaveisColumn(AddToBar(acc, t)) == VariaveisColumn(acc)[name := v];
        SumValuesUpdate(VariaveisColumn(acc), name, v);
      }
    }
  }

  /** The same agreement for variable expenses. */
  lemma BarVariableAgreesWithSummary(ts: seq<Transaction>)
    requires forall i :: 0 <= i < |ts| && IsDespesaVariavel(ts[i]) ==>
      ts[i].categorias.Some? && ts[i].categorias.value.nome != "" && Valor(ts[i]) >= 0
    ensures SumAbs(ts, VariavelBar) == Sum(ts, IsDespesaVariavel)
  {
    SumAbsOfNonNegative(ts, VariavelBar);
    SumCongruent(ts, VariavelBar, IsDespesaVariavel);
  }

  // ---------------------------------------------------------------------
  // Pie series

  /** One slice of the pie. */
  datatype PieSlice = PieSlice(name: string, value: int, fill: string)

  /** `getPieData`: income as its signed sum, and each expense subtype as
      the magnitude of its sum. */
  function PieData(ts: seq<Transaction>): (slices: seq<PieSlice>)
    ensures |slices| == 3
    ensures slices[0] == PieSlice("Receitas", Sum(ts, IsReceita), "#22c55e")
    ensures slices[1].name == "Despesas Fixas" && slices[1].fill == "#7209b7" && slices[1].value >= 0
    ensures slices[2].name == "Despesas Variáveis" && slices[2].fill == "#f72585" && slices[2].value >= 0
  {
    var receitas := Sum(ts, IsReceita);
    var despesasFixas := Sum(ts, IsDespesaFixa);
    var despesasVariaveis := Sum(ts, IsDespesaVariavel);
    [ PieSlice("Receitas", receitas, "#22c55e"),
      PieSlice("Despesas Fixas", Abs(despesasFixas), "#7209b7"),
      PieSlice("Despesas Variáveis", Abs(despesasVariaveis), "#f72585") ]
  }

  /** The pie's expense slices are the magnitudes of the summary's fixed and
      variable totals, and its income slice is the summary's income total. */
  lemma PieAgreesWithSummary(ts: seq<Transaction>, s: Summary)
    requires IsSummaryOf(s, ts)
    ensures PieData(ts)[0].value == s.receitas
    ensures PieData(ts)[1].value == Abs(s.despesasFixas)
    ensures PieData(ts)[2].value == Abs(s.despesasVariaveis)
  {
  }

  /** Taking the magnitude after summing gives at most what the bars, which
      take it per record, would give for the same records. */
  lemma PieAtMostPerRecordMagnitude(ts: seq<Transaction>)
    ensures PieData(ts)[1].value <= SumAbs(ts, IsDespesaFixa)
    ensures PieData(ts)[2].value <= SumAbs(ts, IsDespesaVariavel)
  {
    AbsOfSumAtMostSumOfAbs(ts, IsDespesaFixa);
    AbsOfSumAtMostSumOfAbs(ts, IsDespesaVariavel);
  }

  /** The two rules differ as soon as amounts of both signs meet: fixed
      expenses of 30 and -10 make a pie slice of 20 and a bar of 40. */
  lemma PieAndBarsDisagree()
    ensures var ts := [
              Transaction(1, None, None, Some(30), Some(Despesa), Some(Fixa), "c", Some(CategoryRef("c", "Casa"))),
              Transaction(2, None, None, Some(-10), Some(Despesa), Some(Fixa), "c", Some(CategoryRef("c", "Casa")))];
            PieData(ts)[1].value == 20 && BarOf(BarCategories(ts), "Casa").despesasFixas == 40
  {
    var ts := [
      Transaction(1, None, None, Some(30), Some(Despesa), Some(Fixa), "c", Some(CategoryRef("c", "Casa"))),
      Transaction(2, None, None, Some(-10), Some(Despesa), Some(Fixa), "c", Some(CategoryRef("c", "Casa")))];
    var first := ts[..1];
    assert first[..0] == [];
    assert ts[..|ts| - 1] == first;
    assert Sum(first, IsDespesaFixa) == 30;
    assert Sum(ts, IsDespesaFixa) == 20;
    assert BarCategories(first)["Casa"] == BarTotals(30, 0);
  }

  // ---------------------------------------------------------------------
  // Statistics

  datatype Stats = Stats(totalReceitas: int, totalDespesas: int, saldo: int, transacoesCount: nat, lembretesCount: nat)

  /** `stats`: the income and expense totals, counting exactly 'receita' and
      exactly 'despesa', their difference, the number of records, and a
      reminder count that is always zero. */
  function DashboardStats(ts: seq<Transaction>): (stats: Stats)
    ensures stats.saldo == stats.totalReceitas - stats.totalDespesas
    ensures stats.transacoesCount == |ts| && stats.lembretesCount == 0
  {
    var totalReceitas := Sum(ts, IsReceita);
    var totalDespesas := Sum(ts, IsDespesa);
    Stats(totalReceitas, totalDespesas, totalReceitas - totalDespesas, |ts|, 0)
  }

  /** On the same list the dashboard's statistics equal the report summary's
      income, expense, balance and count. */
  lemma StatsAgreeWithSummary(ts: seq<Transaction>, s: Summary)
    requires IsSummaryOf(s, ts)
    ensures DashboardStats(ts).totalReceitas == s.receitas
    ensures DashboardStats(ts).totalDespesas == s.despesas
    ensures DashboardStats(ts).saldo == s.saldo
    ensures DashboardStats(ts).transacoesCount == s.totalTransactions
  {
  }

  /** A record of no known kind counts in neither dashboard total, although
      the report breakdown puts it on the expense side. */
  lemma OtherKindOutsideStats(ts: seq<Transaction>, t: Transaction)
    requires IsOtherKind(t)
    ensures DashboardStats(ts + [t]).totalReceitas == DashboardStats(ts).totalReceitas
    ensures DashboardStats(ts + [t]).totalDespesas == DashboardStats(ts).totalDespesas
    ensures GroupOf(ByCategory(ts + [t]), CategoryName(t)).despesas == GroupOf(ByCategory(ts), CategoryName(t)).despesas + Valor(t)
  {
    assert (ts + [t])[..|ts + [t]| - 1] == ts;
  }
}
