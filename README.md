# Finance tracker core in Dafny

This project models the data-shaping rules of a small Django finance tracker:

- **The transaction list view** (`transactions_list`). It takes the requesting user's transactions and filters them by type, an inclusive start date, an inclusive end date and a set of category identifiers. It then reports the total income, the total expense and the net total, and picks the partial template for HTMX requests and the full page otherwise.
- **The two chart builders**, as plain data:
  - the income/expense bar chart: two bars, two colours and the currency text of each bar;
  - the per-category pie chart: one slice per category in ascending identifier order, the palette slice, the title, and the "no data" placeholder for an empty queryset.
- **The transaction form**: amount validation, the accepted fields and the category choice. It also covers the create and update effects on the transaction table that the request tests require.
- **The `create_categories` management command**: a get-or-create loop over nineteen default category names into the category table, counting how many names were new.

Modelling choices:

- A transaction is a value `Transaction(id, user, category, amount, date, kind)`.
- Amounts are integer cents, in place of `Decimal`.
- Dates are integer day numbers.
- The `type` field is called `kind`, because `type` is a Dafny keyword.
- Querysets are sequences, and filtering keeps the order of its input.
- The category table handed to the pie chart is a map from primary key to name.

The modules follow the program's structure:

| file | module | models |
|---|---|---|
| `wrappers.dfy` | `Wrappers` | `Option` and `Result` |
| `domain.dfy` | `Domain` | transactions, categories, distinctness and positive amounts |
| `filters.dfy` | `Filters` | user scoping and the list filter |
| `aggregation.dfy` | `Aggregation` | `Sum('amount')` and the per-type totals |
| `views.dfy` | `Views` | `transactions_list` |
| `currency.dfy` | `Currency` | the `f'${x:,.2f}'` label format |
| `charting.dfy` | `Charting` | both chart builders |
| `forms.dfy` | `Forms` | `TransactionForm` |
| `store.dfy` | `Store` | the transaction table under create and update requests |
| `create_categories.dfy` | `CreateCategories` | the seeding command and the category table |

The category seeding loop mutates the table, so it is a class `CategoryTable` whose methods change its `rows`. The create and update requests mutate the transaction table in the same way, so they are methods of a class `TransactionStore`. Everything else is functions and lemmas.

The create and update views are not modelled as code; `Store` models the effects that the request tests in tracker/tests/test_views.py:127-183 pin down. Two rules of `Update` are modelling choices that those tests do not exercise:

- an update of a row the requester does not own, or of a key no row has, answers `NotFound` and changes nothing;
- a rejected update leaves the table unchanged and answers with the errors.

The pie chart's empty check is `if not total_amounts`, a test on the grouped queryset. The placeholder appears exactly when the queryset is empty; a queryset whose category totals are all zero still gets a trace.

## Model

| member | source | states |
|---|---|---|
| Filters.ForUser | tracker/views.py:15 | a row is kept iff it belongs to the requesting user, and nothing is added |
| Filters.ForUserAppend | tracker/views.py:15 | scoping to a user distributes over concatenation |
| Filters.ForUserNone | tracker/views.py:15 | scoping to a user who owns none of the rows gives the empty queryset |
| Filters.Filter | tracker/tests/test_views.py:21-123 | a row is kept iff it matches every supplied parameter (type, start date, end date, category set), and nothing is added |
| Filters.FilterCounts | tracker/views.py:13-16 | a matching row keeps its multiplicity, and a non-matching row is dropped entirely |
| Filters.FilterAppend | tracker/views.py:13-16 | filtering judges each row alone and keeps the input order |
| Filters.FilterNone | tracker/views.py:13-16 | with no parameter supplied, the filtered set is the user's whole queryset |
| Filters.FilterChain | tracker/tests/test_views.py:80-91 | filtering by a conjunction equals filtering by one part and then by the other |
| Filters.FilterIsConjunction | tracker/tests/test_views.py:21-123 | the filter equals the chain of four single-parameter filters, each a no-op when its parameter is absent |
| Filters.DateRange | tracker/tests/test_views.py:76-104 | both bounds together equal the start filter followed by the end filter, with both bounds inclusive, and no row dated outside `[start, end]` survives |
| Aggregation.Sum | tracker/charting.py:12-18 | `Sum('amount')`, 0 on an empty queryset where `or 0` replaces SQL's NULL; with positive amounts the sum is at least the number of rows, so it is positive iff a row exists. `SumAppend`, `SumRemove` and `SumPermutation` state that it is additive and ignores order |
| Aggregation.TotalOf | tracker/charting.py:12-18 | the sum over one type's rows; its contract is stated by `TotalOfCons` (a row counts iff it has that type), `TotalOfAppend`, `TotalOfAbsent` (the `or 0` case), `TotalOfPositive` and `TotalOfPermutation` |
| Aggregation.TotalIncome | tracker/views.py:18 | `get_total_income`: the income total; `NetIsSignedSum` and `TotalsSplitSum` relate it to the expense total, the signed sum and the sum of all amounts |
| Aggregation.TotalExpenses | tracker/views.py:19 | `get_total_expenses`: the expense total; `NetIsSignedSum` and `TotalsSplitSum` relate it to the income total, the signed sum and the sum of all amounts |
| Aggregation.TotalOfCons | tracker/charting.py:12-18 | a per-type total takes a row's amount exactly when the row is of that type |
| Aggregation.TotalOfAppend | tracker/charting.py:12-18 | per-type totals add up over concatenated querysets |
| Aggregation.NetIsSignedSum | tracker/views.py:25 | total income minus total expense equals the independent row-by-row signed sum |
| Aggregation.TotalsSplitSum | tracker/charting.py:12-18 | the income and expense totals add up to the sum of all amounts |
| Aggregation.TotalOfAbsent | tracker/charting.py:12-18 | a type with no rows has total 0, which is the `or 0` case |
| Aggregation.TotalOfPositive | tracker/charting.py:12-18 | with positive amounts a total is at least 0, and it is positive iff a row of that type exists |
| Aggregation.SumRemove | tracker/charting.py:13 | removing one row takes exactly its amount off `Sum('amount')` |
| Aggregation.SumPermutation | tracker/charting.py:13 | `Sum('amount')` depends only on the multiset of rows |
| Aggregation.FilterPermutation | tracker/views.py:13-16 | filtering a permuted queryset gives a permutation of the filtered one |
| Aggregation.TotalOfPermutation | tracker/charting.py:12-18 | per-type totals do not depend on row order |
| Views.TransactionsList | tracker/views.py:12-31 | the rows are exactly the requesting user's matching rows; the totals are that set's income and expense totals; `net_total` is their difference; the partial template is chosen iff the request is HTMX |
| Views.NetTotalIsSignedSum | tracker/views.py:25 | `net_total` is the signed sum of the user's filtered rows |
| Views.OtherUsersInvisible | tracker/views.py:13-19 | inserting other users' rows anywhere around the table leaves the whole page unchanged |
| Views.KindFilterTotals | tracker/tests/test_views.py:26-43 | with a type parameter every row has that type, the other total is 0, and the net equals plus or minus the one total |
| Views.TotalsNonNegative | tracker/views.py:18-19 | with positive amounts both totals are at least 0, and each is 0 iff no shown row has that type |
| Currency.FormatCents | tracker/charting.py:26 | the label starts with `$`, then `-` iff the total is negative, ends with a point and two digits, and is `$0.00` for 0 |
| Currency.FormatCentsLayout | tracker/charting.py:26 | between the sign and the point stands the grouped whole part, with a comma exactly every four places from the end and no leading zero unless the whole part is zero, which reads back as the whole dollars once the commas are dropped; the last two characters are digits spelling the cents |
| Currency.ParseDigitsOfDigits | tracker/charting.py:26 | the decimal digits of a number read back as that number |
| Currency.UngroupGroup | tracker/charting.py:26 | removing the thousands separators gives back the digit string |
| Currency.GroupLayout | tracker/charting.py:26 | grouping adds one comma per full group of three below the leading group, and a character is a comma iff it stands a multiple of four places from the end |
| Currency.ParseUnsignedOf | tracker/charting.py:26 | the grouped whole part and the two decimals read back as the amount in cents |
| Currency.FormatParseRoundTrip | tracker/charting.py:26 | every label reads back as the total that produced it, so distinct totals get distinct labels |
| Charting.IncomeExpenseBarChart | tracker/charting.py:7-38 | `plot_income_expense_bar_chart(qs)` as data; its contract is stated by `BarChartLayout`, `BarChartHeights`, `BarChartText` and `BarChartOrderFree` |
| Charting.BarChartLayout | tracker/charting.py:9-38 | two bars, labelled `Income` then `Expenses`, paired with green `#10b981` and red `#ef4444`, under the title "Income vs Expenses Overview" |
| Charting.BarChartHeights | tracker/charting.py:12-24 | the heights are the income and expense totals; they add up to the sum of all amounts and differ by the net; a type with no row gives a 0 bar labelled `$0.00` |
| Charting.BarChartText | tracker/charting.py:26 | each text label reads back as its bar's height |
| Charting.BarChartOrderFree | tracker/charting.py:12-18 | the bar chart depends only on the multiset of rows |
| Charting.InsertSorted | tracker/charting.py:68 | inserting keeps the identifiers ascending and distinct, and adds exactly the new one |
| Charting.CategoryIds | tracker/charting.py:67-72 | the grouped identifiers are strictly ascending, and an identifier is listed iff some row carries it |
| Charting.CategoryTotal | tracker/charting.py:67-70 | `annotate(total=Sum('amount'))` for one grouped category: the sum over that category's rows; its contract is stated by `SliceValuesAt`, `CategoryTotalAbsent` and `SlicesPartition` |
| Charting.SliceValues | tracker/charting.py:74 | `values_list('total', flat=True)`: one value per listed identifier, in the same order; `SliceValuesAt` states that value `i` is identifier `i`'s total, and `SlicesPartition` that the values add up to the sum of all amounts |
| Charting.SliceValuesAt | tracker/charting.py:74 | value `i` is the total of the `i`-th identifier's rows |
| Charting.SliceLabels | tracker/charting.py:73 | when every identifier is in the category table, label `i` is the name of identifier `i` |
| Charting.CategoryTotalAbsent | tracker/charting.py:69 | a category no row carries has total 0 |
| Charting.SlicesCons | tracker/charting.py:67-70 | one more row adds its amount to the slice sum iff its category is listed |
| Charting.SlicesInsert | tracker/charting.py:67-70 | listing one more identifier adds that category's total to the slice sum |
| Charting.SlicesPartition | tracker/charting.py:67-70 | the slice values add up to the sum of all amounts, so every row lands in exactly one slice |
| Charting.IncreasingUnique | tracker/charting.py:72 | two strictly ascending identifier lists with the same elements are equal |
| Charting.CategoryPieChart | tracker/charting.py:65-111 | `plot_category_pie_chart(qs, title)` as data; its contract is stated by `PieChartPlaceholder`, `PieChartSlices`, `PieChartColors`, `PieChartLabels` and `PieChartOrderFree` |
| Charting.PieChartPlaceholder | tracker/charting.py:83-95 | there is no trace and the "No data available for the selected filters" annotation iff the queryset is empty; the title is the one given, or "Total Amount per Category" |
| Charting.PieChartSlices | tracker/charting.py:67-74 | one slice per distinct category of the queryset, in ascending identifier order, each valued at its category's total, the values adding up to the sum of all amounts |
| Charting.PieChartColors | tracker/charting.py:102 | the colours are the first `min(#labels, 12)` entries of the twelve-colour palette, in order |
| Charting.PieChartLabels | tracker/charting.py:72-73 | when every category is in the table, there are as many labels as values, and label `i` names the category of value `i` |
| Charting.PieChartOrderFree | tracker/charting.py:67-74 | the pie chart, including slice order and colours, depends only on the multiset of rows |
| Forms.CleanAmount | tracker/forms.py:15-19 | accepted iff the amount is positive, then returned unchanged; otherwise refused with "Amount must be greater than zero." |
| Forms.CleanCategory | tracker/forms.py:7-13 | accepted iff the identifier names an existing category, and then unchanged |
| Forms.Validate | tracker/forms.py:5-26 | valid iff the amount is positive and the category exists, and then the submission is unchanged; otherwise the non-empty error list has the amount error iff the amount is not positive and the category error iff the category is unknown, each on a form field |
| Store.FindOwned | tracker/tests/test_views.py:171-177 | finds the position of the row with the given key and owner, or reports that none exists |
| Store.ForUserReplace | tracker/tests/test_views.py:180 | rewriting one row without changing its owner keeps every user's row count |
| Store.TransactionStore.CountFor | tracker/tests/test_views.py:129 | `Transaction.objects.filter(user=user).count()`: the number of the user's rows, never more than the table holds |
| Store.TransactionStore.Create | tracker/tests/test_views.py:127-163 | a valid submission appends exactly one row for its owner under a fresh key and answers with the success fragment; a rejected one changes nothing and answers with the form fragment, the retarget header and its errors; only the owner's count grows, by exactly 1 |
| Store.TransactionStore.Update | tracker/tests/test_views.py:167-183 | a valid update rewrites the owned row's type, amount, date and category in place; an unknown row or an invalid submission changes nothing; every user's count is kept |
| CreateCategories.GetOrCreateNames | tracker/management/commands/create_categories.py:36 | one `get_or_create(name=...)` on the names; its contract is stated by `GetOrCreateShape`, and `CategoryTable.GetOrCreate` is proved to produce it |
| CreateCategories.GetOrCreateShape | tracker/management/commands/create_categories.py:36 | after one get-or-create the existing names stay in place, the name is present, and exactly one row is added iff the name was missing |
| CreateCategories.Seeded | tracker/management/commands/create_categories.py:35-36 | one get-or-create per listed name, in order: each name adds at most one row; `SeededShape`, `SeededAppendsAbsent` and `SeedingIdempotent` state which rows |
| CreateCategories.Absent | tracker/management/commands/create_categories.py:34-38 | a name is listed iff it is a default name the table lacks |
| CreateCategories.SeededShape | tracker/management/commands/create_categories.py:35-36 | seeding keeps the existing names in front, unchanged, and afterwards a name is present iff it was present before or is listed |
| CreateCategories.SeededDistinct | tracker/management/commands/create_categories.py:36 | seeding a table with unique names keeps them unique |
| CreateCategories.SeededAppendsAbsent | tracker/management/commands/create_categories.py:35-43 | with distinct listed names, seeding appends exactly the absent names, in list order |
| CreateCategories.AbsentCount | tracker/management/commands/create_categories.py:34-38 | with distinct listed names, the number of new names equals the number of distinct listed names the table lacked |
| CreateCategories.SeededNoop | tracker/management/commands/create_categories.py:42-43 | names that already exist are neither duplicated nor created |
| CreateCategories.SeedingIdempotent | tracker/management/commands/create_categories.py:35-43 | a second run leaves the table as the first left it and finds nothing absent |
| CreateCategories.DefaultNamesDistinct | tracker/management/commands/create_categories.py:9-32 | the nineteen default names are pairwise distinct, so one run creates between 0 and 19 categories |
| CreateCategories.SeedingDefaults | tracker/management/commands/create_categories.py:9-38 | a run over the default names appends exactly the absent ones, counts the distinct absent defaults, and leaves every default present |
| CreateCategories.IndexOfName | tracker/management/commands/create_categories.py:36 | finds the row with the given name, or reports that none exists |
| CreateCategories.TableAppend | tracker/management/commands/create_categories.py:36 | inserting a new name under the next key keeps names unique and keys distinct and below the next key |
| CreateCategories.CategoryTable.GetOrCreate | tracker/management/commands/create_categories.py:36 | creates a row iff the name is absent, under the next key; otherwise returns the existing row; the table stays well formed |
| CreateCategories.CategoryTable.SeedNames | tracker/management/commands/create_categories.py:34-43 | after the loop the names are those of one get-or-create per listed name, in order; the count is the number of rows added; the earlier rows are untouched |
| CreateCategories.CategoryTable.Handle | tracker/management/commands/create_categories.py:8-47 | appends exactly the absent default names and returns their number, which is the number of distinct defaults the table lacked; leaves the earlier rows untouched; every default is present afterwards |

## Left out

- Plotly presentation is not modelled:
  - fonts, sizes, colours of text, margins, backgrounds and axis titles;
  - hover templates and the donut hole;
  - the slice percentages and the `$%{value:,.0f}` slice text, which the plotting library computes in floating point.
- The Django ORM is replaced by sequence functions. SQL execution, `select_related` and any default ordering of the transaction model are not modelled. The list view (tracker/views.py:15) applies no `order_by`, so filtered sequences keep the order of the table they come from.
- `login_required`, the HTTP request objects, template rendering and HTMX header transport are not modelled. The template choice and the retarget flag are returned as data.
- `tracker/filters.py` and `tracker/models.py` are not part of this model. The filter predicates and `get_total_income` / `get_total_expenses` are modelled from the list-view tests and from the identical aggregation in the bar chart. The leniency of those files towards malformed dates, types or identifiers is not modelled.
- The create and update views are not modelled as code; `Store` models the effects that the request tests in tracker/tests/test_views.py:127-183 pin down.
- Raw form-string parsing and missing fields are not modelled. A submission arrives already typed.
- `tracker/management/commands/generate_sample_data.py` is not modelled. It depends on random numbers, floating-point rounding and database lookups.
- Console output of the management command (`self.stdout.write`, styles) is not modelled. Only the returned count is.
- `Decimal` amounts are not modelled: amounts are integer cents, so the two-decimal bar labels are exact and involve no rounding.
- Currency.FormatCents: the model covers amounts that are whole cents. Python's rounding of a `Decimal` with more than two decimals is not modelled.
- Charting.CategoryPieChart: an explicit `title=None` from Python, which gives the figure no title, is merged with an omitted title, which gives the default.
- The `index` view renders a static page and is not modelled.
