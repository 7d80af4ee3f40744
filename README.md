# finzap reports core, modelled in Dafny

finzap is a personal finance web app. Users record transactions (`transacoes`): an
amount (`valor`), a kind (`tipo`: `'receita'` for income, `'despesa'` for an expense),
an optional expense subtype (`tipo_despesa`: `'fixa'` or `'variavel'`), a date
(`quando`), an establishment and a category. This project models the app's
decision logic:

- **The reports hook** (`src/hooks/useReports.ts`):
  - the query it sends for the signed-in user and the filter fields (`queryFn`);
  - the summary it reduces the fetched records to (`summaryData`): totals by kind and
    subtype, a per-category breakdown, a two-slice chart series, a six-month
    expense trend and the record count.
- **The dashboard's aggregation helpers** (`src/components/dashboard/DashboardCharts.tsx`):
  the bar series per category, the pie series and the statistics. They total the same
  records under different rules. The lemmas state where the dashboard and the
  summary agree and where they do not.
- **The category form** (`src/components/categories/CategoryForm.tsx`): how opening
  it fills its three fields, the submit guard and payload, and when the submit
  button is disabled.
- **The report table** (`src/components/reports/ReportTable.tsx`): what each row
  shows, and the empty state.

## Modules

Each module sits in its own file.

| file | module | what it holds |
|---|---|---|
| `records.dfy` | `Records` | The transaction record. The truthiness tests. The zero default for a null `valor`. The category label. The filtered sums every total is built from. |
| `strings.dfy` | `Strings` | The JavaScript string operations the core relies on: ordinal order (for `localeCompare`), `String(n)`, `padStart`, `trim`. |
| `dict.dfy` | `Dict` | JavaScript objects used as dictionaries. The sum of their values. `Object.entries`. |
| `report_query.dfy` | `ReportQuery` | The query builder of `queryFn`. |
| `expense_trend.dfy` | `ExpenseTrend` | `monthlyExpenses` and `trendData`. |
| `report_summary.dfy` | `ReportSummary` | `summaryData`. |
| `dashboard_charts.dfy` | `DashboardCharts` | `getChartData`, `getPieData` and `stats`. |
| `category_form.dfy` | `CategoryForm` | The form's state and its submit handler. |
| `report_table.dfy` | `ReportTable` | The table's rows and its empty state. |

Code that updates a dictionary in place is modelled as methods with loops:
`byCategory`, `monthlyExpenses` and the `categorias` object of `getChartData`. So is
the query that is reassigned step by step. Each method is proved equal to a function of
its inputs, and the properties are lemmas about that function. The form's `useState`
fields are a class whose `Load` method plays the `useEffect`. Three more
methods assemble a result from these parts:
- `ComputeSummary` builds `summaryData`;
- `ComputeTrend` builds `trendData`;
- `GetChartData` builds the bar rows.

`Dict.Entries` is a method with a loop standing in for `Object.entries`. Every
other operation is a function.

Amounts are integers in minor units. A record's date is its local calendar
`(year, month)`. JavaScript truthiness of a nullable string means "present and
not empty".

Two properties one might expect of the summary do not hold in the code:

- The summary's `despesas` adds only records whose `tipo` is exactly `'despesa'`
  (`useReports.ts:93-95`). It does not add every record that is not income.
  - Only the per-category breakdown sends every non-income record to the expense side
    (`useReports.ts:117-121`).
  - `ReportSummary.ByCategoryDespesasTotal` states the difference.
- "fixed + variable ≤ |expense|" does not hold for every list. The subtype totals are
  signed sums (`useReports.ts:100-106`).
  - `ReportSummary.FixedPlusVariableUnbounded` gives a list with mixed signs that
    breaks it.
  - `ReportSummary.FixedPlusVariableBounded` proves it when all expense amounts have
    the same sign.

## Model

| member | source | states |
|---|---|---|
| `Records.Valor` | src/hooks/useReports.ts:91 | `valor` or 0: a null amount counts as 0, and a present amount is kept as it is. |
| `Records.CategoryName` | src/hooks/useReports.ts:110 | The group label is never empty. It is the joined category's name whenever that name is non-empty. It is 'Sem categoria' exactly when the joined category is missing, has an empty name, or is itself named 'Sem categoria'. |
| `Records.SumSplit` | src/hooks/useReports.ts:89-106 | A `filter(...).reduce(sum of valor)` chain over a filter that is the disjoint union of two others equals the sum of their two chains. So every record counts once in each partition of the totals. |
| `Records.SumCongruent` | src/hooks/useReports.ts:89-106 | Two filters that agree on every record with a non-zero amount give the same sum. |
| `Records.SumAbsNonNegative` | src/components/dashboard/DashboardCharts.tsx:51-54 | A sum of `Math.abs` amounts is never negative. |
| `Records.AbsOfSumAtMostSumOfAbs` | src/components/dashboard/DashboardCharts.tsx:51-74 | The magnitude of a sum is at most the sum of the magnitudes. |
| `Records.SumAbsOfNonNegative` | src/components/dashboard/DashboardCharts.tsx:51-54 | When every amount the filter keeps is non-negative, the sum of magnitudes equals the plain sum. |
| `Records.Abs` | src/components/dashboard/DashboardCharts.tsx:52 | `Math.abs` gives a non-negative number equal to the value or its negation. |
| `ReportQuery.BuildQuery` | src/hooks/useReports.ts:44-75 | No query exactly when the user id is absent or empty. Otherwise the query reads `transacoes`, has the `userid` equality first and the filter constraints after it, and is ordered by `quando`, newest first. |
| `ReportQuery.FilterConstraintsLength` | src/hooks/useReports.ts:58-73 | The filters add exactly one constraint per non-empty field. |
| `ReportQuery.FilterConstraintsPresence` | src/hooks/useReports.ts:58-73 | Each of `quando ≥ startDate`, `quando ≤ endDate`, `tipo = type` and `category_id = categoryId` is present if and only if its field is non-empty. |
| `ReportQuery.FilterConstraintsFromFilters` | src/hooks/useReports.ts:55-73 | Every added constraint is one of those four for a non-empty field. None of them is on `userid`. |
| `ReportQuery.FilterConstraintsNoRepeats` | src/hooks/useReports.ts:58-73 | No constraint is added twice. |
| `ReportQuery.FilterConstraintsIgnorePeriod` | src/hooks/useReports.ts:58-73 | The period preset never changes the constraints. |
| `Strings.LexLessTotal` | src/hooks/useReports.ts:165 | Ordinal string order is total on distinct strings. |
| `Strings.LexLessTransitive` | src/hooks/useReports.ts:165 | Ordinal string order is transitive. |
| `Strings.LexLessAsymmetric` | src/hooks/useReports.ts:165 | Ordinal string order is asymmetric. |
| `Strings.NatToStringRoundTrip` | src/hooks/useReports.ts:139 | Reading back the decimal digits of `String(n)` gives `n`. |
| `Strings.NatToStringInjective` | src/hooks/useReports.ts:139 | Different numbers have different decimal strings. |
| `Strings.FixedDigitsOrder` | src/hooks/useReports.ts:139 | Zero-padded decimal strings of one width compare as the numbers they denote. |
| `Strings.PadStart` | src/hooks/useReports.ts:139 | `padStart` reaches the width (or keeps the length). It puts the fill character in front and keeps the string as the suffix. |
| `Strings.TwoDigitPad` | src/hooks/useReports.ts:139 | A number below 100, padded to two characters, is its two-digit form. |
| `Strings.TrimStart` | src/components/categories/CategoryForm.tsx:49 | The result does not start with whitespace. It is empty exactly when the input is all whitespace. |
| `Strings.TrimEnd` | src/components/categories/CategoryForm.tsx:49 | The result does not end with whitespace and starts like the input. It is empty exactly when the input is all whitespace. |
| `Strings.TrimStartDropsLeadingWhitespace` | src/components/categories/CategoryForm.tsx:56 | The input is some whitespace followed by `trimStart`'s result. |
| `Strings.TrimEndDropsTrailingWhitespace` | src/components/categories/CategoryForm.tsx:56 | The input is `trimEnd`'s result followed by some whitespace. |
| `Strings.Trim` | src/components/categories/CategoryForm.tsx:49 | `trim` neither starts nor ends with whitespace. It is empty exactly when the input is all whitespace. |
| `Strings.TrimKeepsMiddle` | src/components/categories/CategoryForm.tsx:56-57 | `trim` returns a contiguous middle of the input. Everything before and after it is whitespace. |
| `Strings.TrimIdempotent` | src/components/categories/CategoryForm.tsx:56-57 | Trimming a trimmed string changes nothing. |
| `Dict.Entries` | src/hooks/useReports.ts:158 | `Object.entries` lists every key of the dictionary exactly once, each with its value. |
| `ExpenseTrend.MonthKey` | src/hooks/useReports.ts:139 | The key of a month is three characters longer than the year's digits: a dash and a two-digit month. |
| `ExpenseTrend.MonthKeyFormat` | src/hooks/useReports.ts:139 | A month key is the year's digits, a dash and the two-digit month. |
| `ExpenseTrend.MonthKeyInjective` | src/hooks/useReports.ts:139 | Different months never share a key. |
| `ExpenseTrend.MonthKeyChronological` | src/hooks/useReports.ts:139-165 | For four-digit years, one key sorts before another exactly when its month is earlier. |
| `ExpenseTrend.SlotOf` | src/hooks/useReports.ts:140-151 | An expense adds to `fixa` exactly when its subtype is 'fixa', to `variavel` exactly when it is 'variavel', and to `outros` exactly when the subtype is absent, empty, or neither of those. |
| `ExpenseTrend.MonthlyExpensesAppend` | src/hooks/useReports.ts:136-152 | A record that is not a dated 'despesa' leaves the month dictionary unchanged. A dated 'despesa' adds its month as a key and raises that month's total by its amount. Every other month stays as it was. |
| `ExpenseTrend.BucketSlotMatchesSubtype` | src/hooks/useReports.ts:136-151 | A bucketed record's slot is `fixa` exactly for a fixed expense, `variavel` exactly for a variable one, and `outros` exactly for an expense without a known subtype, as the summary classifies them. |
| `ExpenseTrend.AddToSlot` | src/hooks/useReports.ts:146-151 | Adding an amount to one slot raises that slot by it, leaves the other two alone, and so raises the month's total by it. |
| `ExpenseTrend.AddExpense` | src/hooks/useReports.ts:138-152 | One reduce step creates the month's bucket if it is missing. It then adds the amount to the slot picked by the subtype (`outros` for an absent or unknown one). |
| `ExpenseTrend.BuildMonthlyExpenses` | src/hooks/useReports.ts:135-155 | The loop over the records builds exactly the month dictionary of the whole list. |
| `ExpenseTrend.MonthlyExpensesKeys` | src/hooks/useReports.ts:135-144 | A month is in the dictionary if and only if some expense with a date falls in it. |
| `ExpenseTrend.MonthlyExpensesBucket` | src/hooks/useReports.ts:140-152 | Each of a month's `fixa`, `variavel` and `outros` totals is the sum of the amounts of that month's expenses in that slot. |
| `ExpenseTrend.MonthlyExpensesTotal` | src/hooks/useReports.ts:135-155 | Over all months and slots, the buckets add up to the sum of the expenses with a date. Nothing is lost or counted twice. |
| `ExpenseTrend.InsertByMonth` | src/hooks/useReports.ts:165 | Inserting into a list sorted by month key keeps it sorted. The result holds the same points plus the new one. |
| `ExpenseTrend.SortByMonth` | src/hooks/useReports.ts:165 | The sort returns a permutation of its input, sorted by month key. |
| `ExpenseTrend.SliceLast` | src/hooks/useReports.ts:166 | `slice(-n)` keeps the last `n` elements in order, or the whole list when it is shorter. `slice(-0)` is `slice(0)`, so for `n = 0` it keeps the whole list too. |
| `ExpenseTrend.SortedDistinctKeysAscending` | src/hooks/useReports.ts:158-165 | Sorted points with distinct months are strictly ascending. |
| `ExpenseTrend.ShownOrOlder` | src/hooks/useReports.ts:166 | A month the slice leaves out is older than every month it keeps. |
| `ExpenseTrend.SortedEntriesArePoints` | src/hooks/useReports.ts:158-164 | Any ordering of the entries, mapped to points, has one distinct point per month, carrying that month's totals. |
| `ExpenseTrend.PointsOf` | src/hooks/useReports.ts:158-164 | One point per entry, in the same order, each carrying its entry's month and totals. |
| `ExpenseTrend.EntriesGiveTrend` | src/hooks/useReports.ts:158-166 | The entries of the month dictionary, listed in any order, mapped, sorted and cut, give its trend. |
| `ExpenseTrend.SortedPointsGiveTrend` | src/hooks/useReports.ts:158-166 | The last six of the sorted points are the trend of the month dictionary. |
| `ExpenseTrend.ComputeTrend` | src/hooks/useReports.ts:135-166 | `trendData` has `min(6, months)` points, strictly ascending by month key. Each point carries its month's totals unchanged. Every month left out is older than every month shown. |
| `ExpenseTrend.TrendOfNoMonths` | src/hooks/useReports.ts:158-166 | Without months the trend is empty. |
| `ReportSummary.AddToCategory` | src/hooks/useReports.ts:110-123 | One reduce step creates the record's group if it is missing. It adds the amount to `receitas` for income and to `despesas` otherwise, and resets `total` to their difference. |
| `ReportSummary.GroupByCategory` | src/hooks/useReports.ts:109-126 | The loop builds exactly the breakdown of the whole list. |
| `ReportSummary.ByCategoryKeys` | src/hooks/useReports.ts:109-126 | The groups are exactly the labels of the records. |
| `ReportSummary.ByCategoryGroup` | src/hooks/useReports.ts:110-123 | A group's `receitas` is the sum of its income records. Its `despesas` is the sum of all its other records, and its `total` is the difference. So every record counts in one column of one group. |
| `ReportSummary.ByCategoryReceitasTotal` | src/hooks/useReports.ts:89-91 | The groups' `receitas` add up to the summary's `receitas`. |
| `ReportSummary.ByCategoryDespesasSide` | src/hooks/useReports.ts:117-121 | The groups' `despesas` add up to the sum over every record that is not income. |
| `ReportSummary.ByCategoryDespesasTotal` | src/hooks/useReports.ts:93-121 | The groups' `despesas` add up to the summary's `despesas` plus the amounts of records whose kind is neither income nor expense. |
| `ReportSummary.ExpenseSubtypeSplit` | src/hooks/useReports.ts:93-106 | `despesas` = `despesasFixas` + `despesasVariaveis` + the expenses with no known subtype. |
| `ReportSummary.FixedPlusVariableBounded` | src/hooks/useReports.ts:93-106 | When all expense amounts have one sign, fixed plus variable is at most the magnitude of `despesas`. |
| `ReportSummary.FixedPlusVariableUnbounded` | src/hooks/useReports.ts:93-106 | A fixed expense of 100 and an expense of -50 without a subtype give fixed plus variable = 100 > the magnitude of `despesas`, 50. |
| `ReportSummary.ChartData` | src/hooks/useReports.ts:129-132 | Exactly two slices: Receitas with the income total, then Despesas with the expense total. |
| `ReportSummary.ComputeSummary` | src/hooks/useReports.ts:88-179 | The summary of the list: income and expense totals over the exact kinds, `saldo` as their difference, and the subtype totals. Also the breakdown, the chart series, the trend, and the count of all records. |
| `ReportSummary.SummaryExpenseSide` | src/hooks/useReports.ts:89-126 | For any summary: the group income adds up to `receitas`. The group expenses add up to `despesas` plus the other kinds. `despesas` splits into fixed, variable and no-subtype. |
| `ReportSummary.EmptySummary` | src/hooks/useReports.ts:88-179 | No records give zero totals, an empty breakdown, an empty trend and a count of 0. |
| `DashboardCharts.QualifiesForBar` | src/components/dashboard/DashboardCharts.tsx:46 | A record is counted in the bars only if it is an expense with a non-zero amount and a category whose name is its label. Every expense with a non-zero amount and a real category label is counted. |
| `DashboardCharts.AddToBarCategory` | src/components/dashboard/DashboardCharts.tsx:46-55 | One `forEach` step creates the category's row if it is missing. It adds the magnitude of `valor` to the fixed or variable column, or to neither for another subtype. |
| `DashboardCharts.FillBarCategories` | src/components/dashboard/DashboardCharts.tsx:43-57 | The loop builds exactly the bar dictionary of the whole list. |
| `DashboardCharts.GetChartData` | src/components/dashboard/DashboardCharts.tsx:42-64 | One row per category of the dictionary, no category twice, each row with its category's totals. |
| `DashboardCharts.BarCategoriesKeys` | src/components/dashboard/DashboardCharts.tsx:46-49 | A category has a bar exactly when some expense with a non-empty category name and a non-zero amount belongs to it. |
| `DashboardCharts.NoBarForEmptyName` | src/components/dashboard/DashboardCharts.tsx:46 | Uncategorised records never make a bar. |
| `DashboardCharts.BarCategoriesValues` | src/components/dashboard/DashboardCharts.tsx:51-55 | A bar's columns are sums of magnitudes over its fixed and its variable expenses. So both are non-negative. |
| `DashboardCharts.UnknownSubtypeMakesBar` | src/components/dashboard/DashboardCharts.tsx:47-55 | A qualifying expense of another subtype creates its category's row but changes no column. |
| `DashboardCharts.BarFixedTotal` | src/components/dashboard/DashboardCharts.tsx:46-55 | The fixed column adds up to the sum of magnitudes of the categorised fixed expenses. |
| `DashboardCharts.BarVariableTotal` | src/components/dashboard/DashboardCharts.tsx:46-55 | The variable column adds up to the sum of magnitudes of the categorised variable expenses. |
| `DashboardCharts.BarFixedAgreesWithSummary` | src/components/dashboard/DashboardCharts.tsx:51-52 | When every fixed expense is categorised and non-negative, the bars' fixed total equals the summary's `despesasFixas`. |
| `DashboardCharts.BarVariableAgreesWithSummary` | src/components/dashboard/DashboardCharts.tsx:53-54 | When every variable expense is categorised and non-negative, the bars' variable total equals the summary's `despesasVariaveis`. |
| `DashboardCharts.PieData` | src/components/dashboard/DashboardCharts.tsx:66-76 | Exactly three slices in fixed order and colours: Receitas with the signed income sum, then the fixed and the variable expenses, both non-negative. |
| `DashboardCharts.PieAgreesWithSummary` | src/components/dashboard/DashboardCharts.tsx:67-74 | The pie shows the summary's `receitas` and the magnitudes of its `despesasFixas` and `despesasVariaveis`. |
| `DashboardCharts.PieAtMostPerRecordMagnitude` | src/components/dashboard/DashboardCharts.tsx:68-74 | Each expense slice is at most the sum of magnitudes of its records. |
| `DashboardCharts.PieAndBarsDisagree` | src/components/dashboard/DashboardCharts.tsx:52-73 | Fixed expenses of 30 and -10 give a pie slice of 20 but a bar of 40. |
| `DashboardCharts.DashboardStats` | src/components/dashboard/DashboardCharts.tsx:78-88 | `saldo` is income minus expense. The count is the list length. There are always 0 reminders. |
| `DashboardCharts.StatsAgreeWithSummary` | src/components/dashboard/DashboardCharts.tsx:78-86 | On the same list the dashboard's totals, `saldo` and count equal the summary's. |
| `DashboardCharts.OtherKindOutsideStats` | src/components/dashboard/DashboardCharts.tsx:78-79 | A record of another kind changes neither dashboard total, but it adds to its group's expenses in the breakdown. |
| `CategoryForm.OrEmpty` | src/components/categories/CategoryForm.tsx:37-38 | `s`-or-empty is empty exactly when `s` is null or empty. Otherwise it is `s`. |
| `CategoryForm.OrNull` | src/components/categories/CategoryForm.tsx:58 | `s`-or-null is null exactly for the empty string. Otherwise it is `s`. |
| `CategoryForm.FormState.constructor` | src/components/categories/CategoryForm.tsx:29-31 | All three fields start empty. |
| `CategoryForm.FormState.Load` | src/components/categories/CategoryForm.tsx:34-44 | A given category fills the name and, with null read as empty, the tags and subtype. No category clears all three. |
| `CategoryForm.HandleSubmit` | src/components/categories/CategoryForm.tsx:46-72 | Nothing happens exactly when the name is blank. Otherwise there is an update of the given category, or a create when there is none, then a close. The payload has the trimmed name and tags and the subtype or null. |
| `CategoryForm.SentIffNameNotBlank` | src/components/categories/CategoryForm.tsx:49-66 | A payload is sent if and only if the name is not blank, and it is the trimmed one. |
| `CategoryForm.SentPayloadIsTrimmed` | src/components/categories/CategoryForm.tsx:56-64 | A sent name is non-empty. The sent name and tags are unchanged by trimming again. |
| `CategoryForm.SubmitDisabled` | src/components/categories/CategoryForm.tsx:131 | The button is disabled exactly when the name is all whitespace or a create or update is in flight. |
| `CategoryForm.SubmitEnabledIffDispatches` | src/components/categories/CategoryForm.tsx:131 | With no mutation in flight, the button is enabled exactly when a submit would dispatch. |
| `CategoryForm.UnchangedEditRoundTrip` | src/components/categories/CategoryForm.tsx:34-68 | Opening a category with a trimmed name and tags and saving it unchanged sends back its own values, with an empty subtype sent as null. |
| `ReportTable.FormatDate` | src/components/reports/ReportTable.tsx:14-17 | A dash exactly when there is no date. Otherwise the record's date. |
| `ReportTable.SubtypeBadgeOf` | src/components/reports/ReportTable.tsx:65-75 | A badge exactly for an expense with a non-empty subtype. It reads 'Fixa' (colour #7209b7) exactly for 'fixa', and 'Variável' otherwise. |
| `ReportTable.RowOf` | src/components/reports/ReportTable.tsx:42-83 | The row has: the record's key; '+' exactly for income and '-' otherwise; the magnitude of the amount (0 when it is null); the category label; the establishment or 'Sem estabelecimento'; the kind badge; the subtype badge; the date cell. |
| `ReportTable.Table` | src/components/reports/ReportTable.tsx:25-42 | The empty-state message exactly for no records. Otherwise one row per record, in input order. |
| `ReportTable.RowMatchesBreakdown` | src/components/reports/ReportTable.tsx:58-81 | A '+' row is counted in its label's income column of the breakdown. A '-' row is counted in that group's expense column. |
| `ReportTable.BadgeMatchesSubtypeTotals` | src/components/reports/ReportTable.tsx:65-73 | 'Fixa' marks exactly the records of the fixed total. 'Variável' marks the variable ones and the expenses of unknown subtype. |
| `ReportTable.UnknownSubtypeShownAsVariavel` | src/components/reports/ReportTable.tsx:73 | An expense of subtype 'anual' shows a 'Variável' badge but is not a variable expense. |
| `ReportTable.TableMatchesSummaryCount` | src/components/reports/ReportTable.tsx:25-42 | The table has as many rows as the summary counts records, and the empty state exactly when that count is 0. |

## Left out

- **Supabase, `useQuery`, `useAuth`, the `useCategories` mutations and `console.error`.**
  - The query is modelled as the value `queryFn` would send.
  - Fetch errors and their rethrow are not modelled.
  - The category mutations are returned as effects instead of being called.
  - The submit handler's `try`/`catch` is not modelled. A throwing mutation or a
    throwing `onClose` (`CategoryForm.tsx:51-71`) would reach it.
- CategoryForm.HandleSubmit: its `Close` effect always follows the mutation. In the
  code a mutation that throws skips `onClose()` (`CategoryForm.tsx:68`) and only logs
  the error. The model does not capture that path because it does not model thrown
  exceptions.
- **`isCreating` and `isUpdating`** are inputs of `SubmitDisabled`.
- **Floating-point amounts.** `valor` is an integer in minor units, so rounding drift
  is not modelled.
- **Date parsing, time zones and `toLocaleDateString`.**
  - A date is its local `(year, month)`. `new Date(quando)` shifting a UTC-parsed date
    into the previous month is not modelled.
  - A table date cell holds the `(year, month)` it would format. `toLocaleDateString`
    also prints the day, and the model does not keep it.
  - A null and an empty `quando` are one case: every use of the field is a
    truthiness test.
- **`formatCurrency`** is a foreign call. An amount cell holds the magnitude it would
  format.
- ExpenseTrend.SortByMonth: `localeCompare` is modelled as ordinal order.
  - `ExpenseTrend.MonthKeyChronological` proves this is calendar order for four-digit
    years.
  - Years of other widths, and collation differences for them, are not modelled.
- ExpenseTrend.SortByMonth: the engine's `Array.prototype.sort` algorithm is
  modelled as an insertion sort. Only its result is specified, and the keys are
  distinct, so the algorithm does not matter.
- Dict.Entries: the order of `Object.entries` is left open. JavaScript lists
  integer-like keys first and then keys in insertion order. The model allows any
  order, so every result holds for every order.
- ReportSummary.AddToCategory: a label that names an inherited object property,
  such as `constructor`, is treated as a new group. In JavaScript `!acc[categoryName]`
  (`useReports.ts:113`) finds the inherited property, so no group is created.
- DashboardCharts.AddToBarCategory: the same holds for `!categorias[categoryName]`
  (`DashboardCharts.tsx:47`).
- ReportSummary.ByCategoryKeys: "the groups are exactly the labels" holds only for
  labels that are not inherited property names, for the reason above.
- DashboardCharts.BarCategoriesKeys: the same restriction applies to the bar
  categories.
- **Fields no core code reads**: the `created_at`, `detalhes` and `userid`
  columns of a transaction. The category id is taken to be a string.
- **Rendering**: recharts, and the Card, Table and Badge components.
  - `ReportChart.tsx`, `ExpenseTrendChart.tsx`, `ExpenseSummaryCards.tsx` and
    `AppLayout.tsx` are not part of this model.
  - The dashboard's `COLORS` and `chartConfig` constants appear only as the colours
    the pie slices carry.
- **The `filters` state and `setFilters`.** The filters are an input of the query
  builder. `ReportQuery.InitialFilters` records the initial value.
