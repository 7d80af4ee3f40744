/** The report table (src/components/reports/ReportTable.tsx): what each row
    shows for a transaction, and the empty state. Locale date and currency
    formatting are not modelled: a date cell holds the year and month of
    the date it would format, and an amount cell the magnitude it would
    format. */
module ReportTable {
  import opened Records
  import opened ReportSummary

  /** `formatDate(t.quando || '')`: a dash for no date, else the year and
      month of the date. */
  datatype DateCell = Dash | Formatted(date: LocalDate)

  /** The subtype badge: its text and background colour. */
  datatype SubtypeBadge = SubtypeBadge(text: string, color: string)

  /** One row of the table. `income` picks the up arrow, the default kind
      badge and the green amount; otherwise the row has the down arrow, the
      destructive badge and the red amount. */
  datatype Row = Row(
    key: int,
    date: DateCell,
    income: bool,
    estabelecimento: string,
    categoria: string,
    kindBadge: Option<string>,
    subtype: Option<SubtypeBadge>,
    sign: char,
    magnitude: nat)

  datatype TableView = EmptyState(message: string) | Rows(rows: seq<Row>)

  const SemEstabelecimento := "Sem estabelecimento"
  const EmptyMessage := "Nenhuma transação encontrada com os filtros aplicados."

  function FormatDate(quando: Option<LocalDate>): (cell: DateCell)
    ensures cell == Dash <==> quando.None?
    ensures quando.Some? ==> cell == Formatted(quando.value)
  {
    if quando.None? then Dash else Formatted(quando.value)
  }

  /** The badge under the kind badge: only for an expense with a subtype,
      reading 'Fixa' for 'fixa' and 'Variável' for any other subtype. */
  function SubtypeBadgeOf(t: Transaction): (badge: Option<SubtypeBadge>)
    ensures badge.Some? <==> IsDespesa(t) && Truthy(t.tipoDespesa)
    ensures badge.Some? ==> (badge.value.text == "Fixa" <==> t.tipoDespesa == Some(Fixa))
    ensures badge.Some? ==> badge.value.text in {"Fixa", "Variável"}
    ensures badge.Some? ==> (badge.value.color == "#7209b7" <==> badge.value.text == "Fixa")
  {
    if IsDespesa(t) && Truthy(t.tipoDespesa) then
      if t.tipoDespesa == Some(Fixa) then Some(SubtypeBadge("Fixa", "#7209b7"))
      else Some(SubtypeBadge("Variável", "#f72585"))
    else None
  }

  /** The row of one transaction. */
  function RowOf(t: Transaction): (row: Row)
    ensures row.key == t.id
    ensures row.sign == '+' <==> IsReceita(t)
    ensures row.sign == '-' <==> !IsReceita(t)
    ensures row.income <==> IsReceita(t)
    ensures row.magnitude == Abs(Valor(t))
    ensures row.categoria == CategoryName(t)
    ensures row.estabelecimento == if Truthy(t.estabelecimento) then t.estabelecimento.value else SemEstabelecimento
    ensures row.kindBadge == t.tipo
    ensures row.subtype == SubtypeBadgeOf(t)
    ensures row.date == FormatDate(t.quando)
  {
    var income := t.tipo == Some(Receita);
    Row(t.id,
        FormatDate(t.quando),
        income,
        if t.estabelecimento.Some? && t.estabelecimento.value != "" then t.estabelecimento.value else SemEstabelecimento,
        CategoryName(t),
        t.tipo,
        SubtypeBadgeOf(t),
        if income then '+' else '-',
        Abs(Valor(t)))
  }

  /** The table body: the empty state for no transactions, otherwise one row
      per transaction in input order. */
  function Table(ts: seq<Transaction>): (view: TableView)
    ensures view.EmptyState? <==> ts == []
    ensures view.EmptyState? ==> view.message == EmptyMessage
    ensures view.Rows? ==> |view.rows| == |ts| && forall i :: 0 <= i < |ts| ==> view.rows[i] == RowOf(ts[i])
  {
    if |ts| == 0 then EmptyState(EmptyMessage)
    else Rows(seq(|ts|, i requires 0 <= i < |ts| => RowOf(ts[i])))
  }

  /** A row's sign and category label say where the report breakdown puts
      its amount: a '+' row in the income column of the group named by its
      label, a '-' row in that group's expense column. */
  lemma RowMatchesBreakdown(t: Transaction)
    ensures RowOf(t).sign == '+' <==> ReceitaIn(RowOf(t).categoria)(t)
    ensures RowOf(t).sign == '-' <==> DespesaSideIn(RowOf(t).categoria)(t)
  {
  }

  /** A 'Fixa' badge marks exactly the records the fixed total counts; a
      'Variável' badge also marks expenses of an unknown subtype, which
      neither subtype total counts. */
  lemma BadgeMatchesSubtypeTotals(t: Transaction)
    requires RowOf(t).subtype.Some?
    ensures RowOf(t).subtype.value.text == "Fixa" <==> IsDespesaFixa(t)
    ensures RowOf(t).subtype.value.text == "Variável" <==> IsDespesaVariavel(t) || IsDespesaSemSubtipo(t)
  {
  }

  /** For instance an expense of subtype 'anual' shows a 'Variável' badge
      but is not a variable expense. */
  lemma UnknownSubtypeShownAsVariavel()
    ensures var t := Transaction(1, None, None, Some(10), Some(Despesa), Some("anual"), "c", None);
            RowOf(t).subtype == Some(SubtypeBadge("Variável", "#f72585")) && !IsDespesaVariavel(t)
  {
  }

  /** The table has as many rows as the summary counts transactions, and
      an empty state exactly when the count is zero. */
  lemma TableMatchesSummaryCount(ts: seq<Transaction>, s: Summary)
    requires IsSummaryOf(s, ts)
    ensures Table(ts).EmptyState? <==> s.totalTransactions == 0
    ensures Table(ts).Rows? ==> |Table(ts).rows| == s.totalTransactions
  {
  }
}
