# Hashrate Index dashboard: catalog, call selection and table reshaping

This Dafny project models the core of a small Streamlit dashboard for a bitcoin
hashrate-index API. It covers one "Get Data" run:

1. **Catalog** (`catalog.dfy`). The six menu entries of `definedFunctions`. Each
   entry names a remote method of the API client, the resolver that flattens
   that method's response, and up to two parameter axes. An axis maps display
   labels to wire values.
2. **Selection** (`selection.dfy`). The user picks an entry and a label for each
   axis the entry has. The labels become wire values, and the wire values become
   the call's positional arguments by a fixed arity rule: the interval alone,
   the interval then the currency, or nothing.
3. **Reshape** (`reshape.dfy`). The resolver returns a list of flat key/value
   records. The first record's keys become the columns, and every record
   appends its values column by column. The columns then become a frame whose
   first column is the index.
4. **Presentation** (`presentation.dfy`). The views requested for the table.
   "Bitcoin Overview" is a snapshot shown as one metric tile per data column.
   Every other entry is a timeseries shown as a line chart, an area chart and
   summary statistics. The raw table is shown in both modes.
5. **Pipeline** (`pipeline.dfy`). `Run` composes the steps above: the request, the
   resolver lookup, the reshape and the views. The file ends with worked runs.

`basics.dfy` holds `Option`, `Result` and the error kinds. Each error kind is
one place where the script raises:
- `UnknownLabel` and `UnknownKey` are `KeyError`s;
- `NoSuchAttribute` is an `AttributeError`;
- `EmptyResult`, `NoColumns` and `EmptyColumn` are `IndexError`s;
- `RaggedColumns` is pandas' `ValueError` for columns of different lengths;
- `NoDataColumns` is the `ValueError` that `describe()` raises on a frame whose
  only column became the index.

Python's dynamic dispatch is modelled as follows. `getattr` on the client or the
resolver object is a lookup by name over the closed `ApiMethod` datatype. The
model gives these objects only the six methods and the six `resolve_` names.
A name outside them yields `NoSuchAttribute`. Record values have a type
parameter `V`, because the reshape never inspects them.

## Model

| member | source | states |
|---|---|---|
| Catalog.MethodNamed | streamlit_app.py:200 | Looking up an attribute on the client yields a method only when the looked-up name is that method's name. |
| Catalog.MethodNamedInvertsName | streamlit_app.py:200 | Name lookup is the inverse of method naming. Every method is found under its own name, and a name finds a given method if and only if it is that method's name. |
| Catalog.ResolverNamed | streamlit_app.py:207 | Looking up a resolver yields a method only when the name is "resolve_" followed by that method's name. |
| Catalog.ResolverNamedFindsPrefixed | streamlit_app.py:207 | Every method's resolver is found under "resolve_" plus the method name. |
| Catalog.SignatureShapes | streamlit_app.py:24-40 | The client's method signatures are empty, the interval alone, or the interval then the currency. No method takes a currency without an interval. |
| Catalog.OverviewWellFormed | streamlit_app.py:43-48 | The overview entry names a real method and its prefixed resolver, and has no axes, as the method has no parameters. |
| Catalog.HashpriceWellFormed | streamlit_app.py:50-77 | The hashprice entry's interval and currency axes match the method's two parameters. They are non-empty and have distinct labels and wire values. Their wire values are among the options its doc comment lists. |
| Catalog.NetworkHashrateWellFormed | streamlit_app.py:79-100 | The hashrate entry's one interval axis matches the signature. Its six wire values are distinct and documented. |
| Catalog.NetworkDifficultyWellFormed | streamlit_app.py:102-122 | The difficulty entry's interval axis uses only the values its own doc comment lists, which start at three months and include `_6_MONTHS` and `_3_YEAR`. It is non-empty and has distinct labels and wire values. |
| Catalog.OhlcPricesWellFormed | streamlit_app.py:124-145 | The OHLC entry's interval axis matches the signature and uses only documented values. |
| Catalog.AsicPriceIndexWellFormed | streamlit_app.py:147-172 | The ASIC entry has an interval axis with documented values, then a USD/BTC currency axis, matching its two parameters. |
| Catalog.EntryWellFormed | streamlit_app.py:42-173 | Every menu position holds a well-formed entry and calls that position's method. |
| Catalog.MenuLabelsDistinct | streamlit_app.py:42-173 | No two menu entries share a label, as the keys of the catalog dictionary are unique. |
| Catalog.CatalogWellFormed | streamlit_app.py:42-173 | The whole catalog is well formed: distinct labels, well-formed entries, and no method called by two entries. |
| Catalog.AxisNamesAreKnown | streamlit_app.py:181-189 | A well-formed entry has only axes named `inputInterval` or `currency`, each at most once. No axis goes unread by the selection code. |
| Catalog.EntryFor | streamlit_app.py:42-173 | For each remote method, a menu position whose entry calls it. |
| Catalog.CatalogCoversEveryMethodOnce | streamlit_app.py:42-173 | Every remote method is offered by exactly one menu entry. |
| Catalog.OperationNamed | streamlit_app.py:176-177 | Looking up an entry by menu label returns an entry carrying that label, or nothing exactly when no entry has it. |
| Catalog.OperationNamedFindsEntry | streamlit_app.py:176-177 | With distinct labels, looking up an entry's own label returns that entry. |
| Selection.AxisNamed | streamlit_app.py:181 | The presence test on the parameter map finds an axis of the asked name, or nothing exactly when the entry has no such axis. |
| Selection.WireOf | streamlit_app.py:183 | Looking up a label finds a choice with that label and returns its wire value. It finds nothing only when no choice carries the label. |
| Selection.ResolveAxis | streamlit_app.py:180-189 | The selected value stays None when the entry lacks the axis. It is the wire value filed under the chosen label when the label is offered. Otherwise the lookup fails with a `KeyError`. |
| Selection.OfferedLabelsResolve | streamlit_app.py:182-183 | Every label the selection box offers resolves to the wire value filed under it. |
| Selection.WireOfDistinct | streamlit_app.py:183 | With distinct labels, the lookup of choice i's label returns choice i's wire value. |
| Selection.Arguments | streamlit_app.py:201-206 | The arity rule: no interval gives no arguments, even if a currency was chosen; an interval alone gives one argument; both give the interval, then the currency. |
| Selection.RequestMatchesSignature | streamlit_app.py:199-206 | For a well-formed entry and offered labels, the request succeeds. It calls the entry's method with exactly one argument per declared parameter, in order. Each argument is the wire value of the label chosen for that parameter. |
| Selection.AxisNamedFollowsSignature | streamlit_app.py:181-189 | A well-formed entry has an axis of a given name if and only if its method declares a parameter of that name. |
| Selection.CurrencyNeverDropped | streamlit_app.py:201-206 | No well-formed entry has a currency axis without an interval axis. Whenever a currency is chosen, the call carries two arguments. |
| Reshape.AddRecordSpec | streamlit_app.py:214-215 | Appending one record succeeds if and only if all its keys are existing columns. On success, each column grows by the record's value under its key, or not at all when the record lacks the key. On failure, the error names the record's first unknown key. |
| Reshape.FillSpec | streamlit_app.py:213-215 | Filling succeeds if and only if every record's keys are columns. The result is one column per key, holding the record-order projection. On failure, the error names the first offending record and its first unknown key. |
| Reshape.ToColumnsSpec | streamlit_app.py:210-215 | The column map. An empty list fails. Otherwise it succeeds exactly when no record has a key the first lacks, and the columns follow the first record's key order. |
| Reshape.ColumnsShortWhereMissing | streamlit_app.py:213-215 | In the column map, a record lacking one of the first record's keys leaves that key's column shorter than the record list. No default value is filled in. |
| Reshape.BuildOutcome | streamlit_app.py:210-219 | The reshape fails in four ways, each stated as an if-and-only-if: an empty list; a foreign key; columns of unequal length; a keyless first record. It succeeds in all other cases. |
| Reshape.BuildTable | streamlit_app.py:210-219 | A built table is rectangular. Its index is the first record's first key, and its other columns follow the first record's key order, each holding the records' values under its key. |
| Reshape.BuildSpec | streamlit_app.py:210-219 | The outcome and the table of the reshape together. |
| Reshape.ProjectFull | streamlit_app.py:213-215 | A key every record has yields a column as long as the record list, with record i's value at position i. |
| Reshape.ProjectShort | streamlit_app.py:213-215 | A record lacking a key adds no value for it, so that column is shorter than the record list. |
| Reshape.ProjectFirst | streamlit_app.py:211-215 | The first record's value heads the column of each of its keys. |
| Reshape.BuildHomogeneous | streamlit_app.py:210-219 | Records with identical key sets always build. Every column, index included, then has one entry per record, and entry i is record i's value. |
| Reshape.SingleRecordBuilds | streamlit_app.py:210-219 | A one-record response with at least one field always builds a one-row table. |
| Reshape.BuildRejectsMissingField | streamlit_app.py:213-219 | A record that lacks one of the first record's fields, while every record has the index field, makes the frame construction fail. |
| Reshape.BuildPairsAcrossRecords | streamlit_app.py:213-219 | Gaps that balance out are not caught. Here one record lacks the value field and a later one lacks the index field. The table is built anyway, and its second row pairs values from two different records. |
| Reshape.BuildColumnsStartWithFirstRecord | streamlit_app.py:211-219 | Every column of a built table is non-empty and starts with the first record's value under its key. |
| Reshape.BuildKeys | streamlit_app.py:218-219 | The built table's keys are the first record's keys in order: the index key first, then the column keys. |
| Reshape.RowsOfBuild | streamlit_app.py:210-219 | Round trip: when every record lists the same keys in the same order, reading the built table's rows back gives the records unchanged. Nothing is reordered, dropped or merged. |
| Presentation.Metrics | streamlit_app.py:231-233 | One tile per data column, in column order, each showing the column's first value. Building the tiles fails if and only if some column is empty, and then names an empty column. |
| Presentation.Views | streamlit_app.py:223-235 | Every entry but the overview gets the line chart, the area chart, the statistics and the raw data, unless the table has only its index: its statistics cannot be computed (line 229), and the run fails with `NoDataColumns`. The overview gets the heading first and no chart. Every successful view list ends with the raw data. |
| Presentation.SnapshotIsParameterless | streamlit_app.py:223 | The one entry shown as tiles is exactly the entry without parameters: the first menu entry. |
| Presentation.SnapshotViewsOfBuiltTable | streamlit_app.py:230-235 | Under the overview, a built table always gets its views: the heading, one tile per non-index key of the first record in its key order, each showing that record's value, then the raw data. |
| Presentation.ViewsOfBuiltTable | streamlit_app.py:223-235 | On a built table, the views fail if and only if a timeseries entry gets a table with no data column, and then with `NoDataColumns`. A timeseries with a data column gets both charts, the statistics and the raw data. The snapshot views are as above. |
| Pipeline.ResolverFor | streamlit_app.py:207 | The resolver found for an entry is named by the prefix rule. When none matches, the run stops with an `AttributeError`. |
| Pipeline.ResolverMatchesMethod | streamlit_app.py:200-207 | A well-formed entry's resolver is the one for the very method the entry calls. |
| Pipeline.MenuRequestsAreWellFormed | streamlit_app.py:199-207 | For every menu entry and offered labels, the run calls that entry's method with one argument per parameter. It flattens the response with the same method's resolver. |
| Pipeline.DisplayOutcome | streamlit_app.py:210-235 | Showing the data succeeds if and only if the reshape succeeds and the entry is the overview or the first record has a key besides the index. A reshape failure is passed on with its error. Any other failure is `NoDataColumns`. A missing tile value never stops a run. |
| Pipeline.RunOfWellFormed | streamlit_app.py:199-235 | A run of a well-formed entry with offered labels calls the entry's method and uses that method's resolver. It succeeds if and only if the records reshape and the table can be shown. A failure carries the reshape's error or `NoDataColumns`. |
| Pipeline.RunOnMenu | streamlit_app.py:199-235 | Every menu entry's run calls that position's method with one argument per declared parameter and uses the same method's resolver. It succeeds if and only if the records reshape and the entry is the overview or the table has a data column. |
| Pipeline.HashrateRequest | streamlit_app.py:199-206 | "Network Hashrate" with "7 Days" calls the hashrate method with the single argument `_7_DAYS`. |
| Pipeline.HashrateDisplay | streamlit_app.py:210-229 | Two time/rate records give a two-row table indexed by time, shown as charts and statistics. |
| Pipeline.IndexOnlyHashrateFails | streamlit_app.py:210-229 | Records that hold only the time key build a table with no data column. "Network Hashrate" then fails to summarise it, with `NoDataColumns`. |
| Pipeline.OverviewRequest | streamlit_app.py:199-206 | "Bitcoin Overview" calls the overview method with no arguments. |
| Pipeline.OverviewDisplay | streamlit_app.py:223-235 | A one-record overview response is shown as the heading, one tile per non-index field carrying that field's value, and the raw data. |

## Left out

- Page text and widgets: the title and markdown, the select boxes, the button and the expanders. The labels the user picks are parameters of `Request`; that the boxes offer only catalog labels is the `Pickable` hypothesis.
- The API key input and the construction of the client and resolver objects (lines 192-196): they carry credentials and transport settings only.
- The remote call and the resolvers' own flattening: `hashrateindex.API` and `resolvers.RESOLVERS` are not part of this model. A run's response is the record list given to `Pipeline.Display`.
- Frame construction (line 219) is modelled only as its check that all columns have one length, plus the choice of the first column as the index. Column types, missing-value markers and the frame's other behaviour are not modelled.
- Date parsing of the index (line 220). Index values are kept as they arrive, and a value that does not parse is not modelled as an error.
- The content of the statistics table (`describe()`, line 229) and of the charts: only which views are requested is modelled. Of the ways `describe()` can raise, only the frame without data columns is modelled.
- Partial rendering: when the statistics fail, the two charts above them have already been drawn. The model reports only the failure.
- Python dictionaries cannot repeat a key. Records are sequences of pairs, so the reshape lemmas take "no record repeats a key" (`AllDistinctKeys`) as a hypothesis.
- Attributes of the client and the resolver object other than the six methods and their resolvers, such as the `request(query, params)` method the comment at line 21 lists. The model limits both objects to those names. Its `NoSuchAttribute` stands for a lookup of any other name, which the catalog never makes.
- The metric tile value `tablePdData[col][0]` is modelled as the column's first value. That is what pandas' positional fallback reads on a date index.
- Records whose key sets differ. A schema-mismatch error raised before reshaping is a possible hardening, but the script does not check for it, and the model follows the script:
  - a key the first record lacks is a `KeyError` (`UnknownKey`);
  - a missing key gives a short column, and the frame then fails to build (`RaggedColumns`);
  - gaps that balance out go through, and rows mix records (`Reshape.BuildPairsAcrossRecords`).
