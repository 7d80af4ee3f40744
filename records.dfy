/** The transaction record read by the reports hook, the dashboard and the
    report table, with the sums that every total in the reports is built from. */
module Records {

  datatype Option<+T> = None | Some(value: T)

  /** `getMonth() + 1`: a calendar month, 1 for January. */
  type MonthOfYear = m: int | 1 <= m <= 12 witness 1

  /** The local calendar year and month of a transaction's `quando` date. */
  datatype LocalDate = LocalDate(year: nat, month: MonthOfYear)

  /** The joined `categorias` row: the category's id and display name. */
  datatype CategoryRef = CategoryRef(id: string, nome: string)

  /** One row of `transacoes`. Amounts (`valor`) are integers in minor units.
      `quando` is None both when the column is null and when it is the empty
      string: every use of it in the reports is a truthiness test. */
  datatype Transaction = Transaction(
    id: int,
    quando: Option<LocalDate>,
    estabelecimento: Option<string>,
    valor: Option<int>,
    tipo: Option<string>,
    tipoDespesa: Option<string>,
    categoryId: string,
    categorias: Option<CategoryRef>)

  const Receita := "receita"
  const Despesa := "despesa"
  const Fixa := "fixa"
  const Variavel := "variavel"
  const SemCategoria := "Sem categoria"

  /** A string that JavaScript treats as true: present and not empty. */
  predicate Truthy(s: Option<string>) {
    s.Some? && s.value != ""
  }

  /** `t.valor || 0`: a missing amount counts as zero. */
  function Valor(t: Transaction): (v: int)
    ensures t.valor.None? ==> v == 0
    ensures t.valor.Some? ==> v == t.valor.value
  {
    if t.valor.Some? then t.valor.value else 0
  }

  /** `Math.abs` on integers. */
  function Abs(x: int): (r: nat)
    ensures r == x || r == -x
  {
    if x < 0 then -x else x
  }

  predicate IsReceita(t: Transaction) {
    t.tipo == Some(Receita)
  }

  predicate IsDespesa(t: Transaction) {
    t.tipo == Some(Despesa)
  }

  /** A record whose `tipo` is null or neither 'receita' nor 'despesa'. */
  predicate IsOtherKind(t: Transaction) {
    !IsReceita(t) && !IsDespesa(t)
  }

  predicate IsDespesaFixa(t: Transaction) {
    IsDespesa(t) && t.tipoDespesa == Some(Fixa)
  }

  predicate IsDespesaVariavel(t: Transaction) {
    IsDespesa(t) && t.tipoDespesa == Some(Variavel)
  }

  /** An expense whose subtype is absent or neither 'fixa' nor 'variavel'. */
  predicate IsDespesaSemSubtipo(t: Transaction) {
    IsDespesa(t) && !IsDespesaFixa(t) && !IsDespesaVariavel(t)
  }

  /** `t.categorias?.nome || 'Sem categoria'`: the label a record is grouped
      and listed under. */
  function CategoryName(t: Transaction): (name: string)
    ensures name != ""
    ensures name == SemCategoria <==>
      t.categorias.None? || t.categorias.value.nome in {"", SemCategoria}
    ensures t.categorias.Some? && t.categorias.value.nome != "" ==> name == t.categorias.value.nome
  {
    if t.categorias.Some? && t.categorias.value.nome != "" then t.categorias.value.nome
    else SemCategoria
  }

  /** `ts.filter(keep).reduce((acc, t) => acc + (t.valor || 0), 0)`. */
  function Sum(ts: seq<Transaction>, keep: Transaction -> bool): int {
    if ts == [] then 0
    else Sum(ts[..|ts| - 1], keep) + (if keep(ts[|ts| - 1]) then Valor(ts[|ts| - 1]) else 0)
  }

  /** The same sum with `Math.abs` applied to every amount. */
  function SumAbs(ts: seq<Transaction>, keep: Transaction -> bool): int {
    if ts == [] then 0
    else SumAbs(ts[..|ts| - 1], keep) + (if keep(ts[|ts| - 1]) then Abs(Valor(ts[|ts| - 1])) else 0)
  }

  /** Two filters that agree on every record of the list with a non-zero
      amount give the same sum. */
  lemma {:induction false} SumCongruent(ts: seq<Transaction>, p: Transaction -> bool, q: Transaction -> bool)
    requires forall i :: 0 <= i < |ts| && Valor(ts[i]) != 0 ==> p(ts[i]) == q(ts[i])
    ensures Sum(ts, p) == Sum(ts, q)
  {
    if ts != [] {
      SumCongruent(ts[..|ts| - 1], p, q);
    }
  }

  /** A filter that is the disjoint union of two others sums to their sum. */
  lemma {:induction false} SumSplit(ts: seq<Transaction>, p: Transaction -> bool, q: Transaction -> bool, r: Transaction -> bool)
    requires forall t :: p(t) <==> q(t) || r(t)
    requires forall t :: !(q(t) && r(t))
    ensures Sum(ts, p) == Sum(ts, q) + Sum(ts, r)
  {
    if ts != [] {
      SumSplit(ts[..|ts| - 1], p, q, r);
    }
  }

  /** Sums of magnitudes are never negative. */
  lemma {:induction false} SumAbsNonNegative(ts: seq<Transaction>, p: Transaction -> bool)
    ensures SumAbs(ts, p) >= 0
  {
    if ts != [] {
      SumAbsNonNegative(ts[..|ts| - 1], p);
    }
  }

  /** Taking the magnitude after summing never gives more than summing the
      magnitudes (the triangle inequality). */
  lemma {:induction false} AbsOfSumAtMostSumOfAbs(ts: seq<Transaction>, p: Transaction -> bool)
    ensures Abs(Sum(ts, p)) <= SumAbs(ts, p)
  {
    if ts != [] {
      AbsOfSumAtMostSumOfAbs(ts[..|ts| - 1], p);
    }
  }

  /** When every amount the filter keeps is non-negative, both sums agree. */
  lemma {:induction false} SumAbsOfNonNegative(ts: seq<Transaction>, p: Transaction -> bool)
    requires forall i :: 0 <= i < |ts| && p(ts[i]) ==> Valor(ts[i]) >= 0
    ensures SumAbs(ts, p) == Sum(ts, p)
  {
    if ts != [] {
      SumAbsOfNonNegative(ts[..|ts| - 1], p);
    }
  }
}
