# Getreide futures collector: a Dafny model of setup.py

Getreide-Agprices-WebApp collects daily prices of grain futures and keeps
them in a SQLite file, `futures.db`. Its core is `setup.py`. This project
models the parts of that file that carry logic:

- `market_year_flag` labels a contract with its crop year. A crop year runs
  from September (letter U) to the following August (letter Q). The label
  reads "2024/25".
- `scrap_tw` lists the contracts of one asset: `lookback` expiry years,
  counting down from `init_year`, and each expire-month letter. For each
  contract it fetches the daily bars and cuts every time to a date. Each row
  is tagged with the letter and the year. Rows of the five agricultural
  tickers also get a market-year tag. All frames are collected into one table.
- `futures_database_creation` creates nine tables with
  `CREATE TABLE IF NOT EXISTS`. Five agricultural tables have a
  `market_year` column. Four macroeconomic tables do not. Every table has the
  primary key (time, exp_month, exp_year).
- Schema.Database.Execute compares table names exactly. SQLite compares identifiers without regard to ASCII case, so on a file that already holds `cbot_corn` the statement for `CBOT_corn` (setup.py:37) does nothing in SQLite, while the model adds a second table; ProvisionEffect's "nothing else appears" is about exact names. An index or view of the same name makes the statement fail in SQLite; the model's file holds tables only.
- `download_futures_prices` only lists the catalog: each ticker with its
  expire months.

Modules, one file each:

- `Results`: Option and Result.
- `Decimal`: Python's `str(n)` and the slice `s[-2:]`.
- `MarketYear`: the classifier.
- `Rows`: bars, rows and the date cut.
- `Aggregator`: `scrap_tw`, written as two loops.
- `Schema`: the tables, and the `Database` class whose `tables` field the
  provisioning method updates.
- `Catalog`: the asset constants.

`scrap_tw` has two inputs that come from outside the file. Both are
parameters of the model:

- `fetch` stands for the price loader `load_asset_price`.
- `localize` stands for the time-zone conversion to America/Sao_Paulo.

Where the docstring of `scrap_tw` and its code disagree, the model follows
the evident intent. Each such departure is listed below, and the one at
line 131 is also kept as written.

## Model

| member | source | states |
|---|---|---|
| Decimal.NatToString | setup.py:89 | `str(n)` of a natural number is a non-empty digit string; it has two or more digits exactly when n >= 10, and it starts with '0' only for n = 0 (no leading zeros) |
| Decimal.NatToStringRoundTrip | setup.py:89 | reading the numeral back gives n, so `str` loses nothing |
| Decimal.NatToStringInjective | setup.py:89 | different natural numbers have different numerals |
| Decimal.IntToString | setup.py:89-91 | `str` of a year: a minus sign for negative years, then the numeral of its absolute value; SignOfString and IntToStringInjective state what it promises |
| Decimal.SignOfString | setup.py:89-91 | `str(n)` starts with '-' exactly when n is negative |
| Decimal.IntToStringInjective | setup.py:89-91 | different years render as different strings |
| Decimal.LastTwo | setup.py:89 | `s[-2:]` has length min(\|s\|, 2) and is the tail of s |
| Decimal.TwoDigits | setup.py:89-91 | a number below 100, zero-padded: two digit characters |
| Decimal.TwoDigitsRoundTrip | setup.py:89-91 | the two digits read back as the number |
| Decimal.LastTwoDigitsNat | setup.py:89 | for n >= 10, `str(n)[-2:]` is n mod 100, zero-padded to two digits |
| Decimal.LastTwoDigits | setup.py:89-91 | for \|n\| >= 10, a sign included, `str(n)[-2:]` is \|n\| mod 100, zero-padded |
| MarketYear.MonthOf | setup.py:68-81 | a dictionary key maps to a month 1..12, and that month's letter is the key |
| MarketYear.MonthTable | setup.py:68-81 | F..Z map to 1..12 in calendar order, and only those twelve letters are keys |
| MarketYear.MonthTableInjective | setup.py:68-81 | no two letters share a month |
| MarketYear.CropYearOf | setup.py:83-84 | the crop year that holds (year, month) runs from September to August, and it is the only such window |
| MarketYear.CropYearLabel | setup.py:89-91 | the f-string of a crop year starting in Y: str(Y), a slash, the last two characters of str(Y+1); LateMonthLabel, EarlyMonthLabel and CropYearLabelInjective state what it gives |
| MarketYear.MarketYearFlag | setup.py:55-91 | the result is an error exactly for a letter that is not a dictionary key (KeyError, naming that letter); otherwise it is the label of the crop year that holds the contract |
| MarketYear.BranchesPartitionCodes | setup.py:83-91 | U, V, X, Z take the first branch; the other eight letters take the second; no letter takes both or neither, so the function never falls through |
| MarketYear.LateMonthLabel | setup.py:88-89 | from September on, the label is "Y/" plus (Y+1) mod 100 in two digits |
| MarketYear.EarlyMonthLabel | setup.py:90-91 | up to August, the label is "(Y-1)/" plus Y mod 100 in two digits |
| MarketYear.SeptemberAndJanuaryLabels | setup.py:88-91 | both branches on concrete contracts: U of 2023 is "2023/24", U of 2024 is "2024/25", F of 2024 is "2023/24" |
| MarketYear.CropYearContinuity | setup.py:83-91 | two contracts in the same crop year get the same label, across the turn of the calendar year |
| MarketYear.AugustAndSeptemberShareLabel | setup.py:83-91 | the Q contract of Y+1 and the U contract of Y share the label of crop year Y |
| MarketYear.CropYearLabelInjective | setup.py:89-91 | different crop years (from year 9 on) have different labels |
| MarketYear.SameLabelIffSameCropYear | setup.py:55-91 | for years >= 10, two contracts get the same label exactly when they fall in the same crop year |
| Rows.ToDate | setup.py:126 | the cut keeps the calendar day, and drops the time of day and the zone |
| Rows.ToDateIdempotent | setup.py:126 | cutting twice is cutting once; a midnight date is left as it is |
| Aggregator.MarketYearTag | setup.py:131 | the tag fails exactly for an agricultural ticker with an unknown letter, with a KeyError naming that letter; otherwise it is present exactly for the five agricultural tickers, and then it is the label of the crop year that holds the contract's own month and year |
| Aggregator.OwnMarketYear | setup.py:131 | the market year a contract's rows should carry: present exactly for an agricultural ticker with a valid letter, and then the label of the contract's own crop year |
| Aggregator.StaleMarketYearTag | setup.py:131 | line 131 as written: the tag of the letter in year init_year - 1, whatever the contract's year; StaleTagRightOnlyInSecondYear and StaleTagExample show where it is wrong |
| Aggregator.Symbol | setup.py:124 | the symbol ticker + letter + str(year) of a contract; SymbolInjective shows it determines the contract for one-letter months |
| Aggregator.Contracts | setup.py:122-123 | the contracts in fetch order; ContractsLength, ContractAt, ContractsRange and ContractsDistinct give their count, their positions, their range and that none repeats |
| Aggregator.TagRow | setup.py:125-131 | the row of one bar has, at midnight and without a zone, the calendar day of the bar's converted time, the contract's letter and year, the bar's four prices and the given market-year tag |
| Aggregator.RowOfBarUnique | setup.py:125-131 | those columns fix the row: any row with them is TagRow's |
| Aggregator.TagBars | setup.py:125-131 | one row per bar, in bar order; row j has the calendar day of bar j's converted time at midnight without a zone, the contract's letter and year, bar j's open, high, low and close, and the frame's market-year tag |
| Aggregator.Frame | setup.py:124-131 | the tagged frame of one contract, or the KeyError of its market-year lookup; AggregateOutcome and AggregateRows state what the run of frames gives |
| Aggregator.Aggregate | setup.py:122-133 | the fold over contracts that the loops compute (ScrapTw): each frame in front of the earlier rows, the first failed lookup aborting; AggregateOutcome and AggregateRows state its outcome and its rows |
| Aggregator.ScrapTw | setup.py:94-134 | the result is the fold of all lookback·\|months\| contracts, in fetch order: each frame goes in front of the earlier rows, and the first failed lookup aborts the run |
| Aggregator.ScrapYear | setup.py:123-133 | one pass of the inner loop extends the run from year i to year i + 1 |
| Aggregator.FailingLetterFailsYear | setup.py:131 | a letter whose lookup fails ends its year's run with that letter's KeyError |
| Aggregator.TaggedLetterExtendsRun | setup.py:124-133 | a letter whose lookup succeeds puts its tagged frame in front of the rows so far |
| Aggregator.FailingYearFailsRun | setup.py:122-133 | a failed year makes the whole run fail with the same error |
| Aggregator.ContractsExtend | setup.py:122-123 | the contracts of fewer years are a prefix of the contracts of more years |
| Aggregator.ContractsLength | setup.py:122-123 | there are exactly lookback·\|months\| contracts |
| Aggregator.ContractAt | setup.py:122-124 | position i·\|months\| + k holds letter k of year init_year - i: years on the outside, descending; letters on the inside, in list order |
| Aggregator.ContractsRange | setup.py:122-124 | every contract has a listed letter and a year in (init_year - lookback, init_year] |
| Aggregator.ContractsDistinct | setup.py:122-124 | with a repetition-free month list, no contract comes up twice |
| Aggregator.SymbolInjective | setup.py:124 | with one-letter months, a symbol determines its contract |
| Aggregator.Enumeration | setup.py:122-124 | lookback·\|months\| symbols; symbol i·\|months\| + k is ticker + letter k + str(init_year - i) |
| Aggregator.SymbolsDistinct | setup.py:122-124 | with distinct one-letter months, no symbol is fetched twice |
| Aggregator.AggregateErrPrefix | setup.py:122-133 | once a prefix of the run has failed, the whole run fails the same way |
| Aggregator.AggregateOutcome | setup.py:86-131 | the run succeeds exactly when the ticker is not agricultural or every letter is a key; a failure reports the first contract, in fetch order, with a bad letter |
| Aggregator.AggregateRows | setup.py:124-133 | every row comes from a fetched bar of one contract. It has that contract's letter, year and own market year, and a midnight time. Every fetched bar appears, and the row count is the total bar count |
| Aggregator.ValidLettersAggregate | setup.py:122-133 | a run over valid letters never fails |
| Aggregator.OtherYearOtherLabel | setup.py:131 | one letter in two different years (>= 10) gets two different labels |
| Aggregator.TagIdentifiesYear | setup.py:131 | for one letter, two years (>= 10) get the same tag exactly when they are equal |
| Aggregator.StaleTagRightOnlyInSecondYear | setup.py:131 | as written, a contract's tag is right exactly when the contract expires in init_year - 1 |
| Aggregator.StaleTagExample | setup.py:131 | as written, ZCU2024 in a run from 2024 is tagged "2023/24"; its own label is "2024/25" |
| Schema.Apply | setup.py:37-52 | the effect of one CREATE TABLE IF NOT EXISTS on the file's tables; ApplyUnion states it |
| Schema.Provision | setup.py:37-52 | the nine statements applied in source order; ProvisionKeepsExisting, ProvisionFromEmpty, ProvisionIdempotent and ProvisionEffect state what it gives |
| Schema.Database.Connect | setup.py:7 | the connection holds the tables already in the file |
| Schema.Database.Execute | setup.py:37-52 | one CREATE TABLE IF NOT EXISTS: a table of exactly that name is kept, and otherwise an empty table with the statement's layout is added |
| Schema.FuturesDatabaseCreation | setup.py:6-52 | the new tables are the nine statements applied in source order to the old ones |
| Schema.ApplyUnion | setup.py:37-52 | a statement on c + m acts on c, and the tables of m still win |
| Schema.ProvisionFromEmpty | setup.py:37-52 | on an empty file, provisioning creates exactly the nine tables, empty, each with its layout |
| Schema.ProvisionKeepsExisting | setup.py:37-52 | provisioning gives the nine new tables, overridden by every table the file already held |
| Schema.ProvisionIdempotent | setup.py:37-52 | running futures_database_creation twice is the same as running it once |
| Schema.ProvisionEffect | setup.py:37-52 | per table name: existing tables are untouched, missing ones among the nine are added, and nothing else appears |
| Schema.Layouts | setup.py:10-33 | the agricultural layout is the macroeconomic one plus `market_year TEXT`; the macroeconomic one has no market_year; the key columns are columns of both |
| Schema.CreatedTables | setup.py:37-52 | the nine tables are the five agricultural ones (with market_year) and the four macroeconomic ones (without it); all share the primary key and start empty |
| Schema.NineTables | setup.py:37-52 | there are exactly nine tables |
| Catalog.CbotCornWellFormed | setup.py:137-138 | ZC is agricultural and lists valid letters, in calendar order |
| Catalog.B3CornWellFormed | setup.py:140-141 | CCM is agricultural and lists valid letters, in calendar order |
| Catalog.CbotSoybeansWellFormed | setup.py:143-144 | ZS is agricultural and lists valid letters, in calendar order |
| Catalog.CbotSoybeansOilWellFormed | setup.py:146-148 | ZL is agricultural and lists valid letters, in calendar order |
| Catalog.CbotSoybeansMealWellFormed | setup.py:147-148 | ZM is agricultural and lists valid letters, in calendar order |
| Catalog.CatalogWellFormed | setup.py:136-148 | every listed asset is agricultural and lists valid letters, in calendar order |
| Catalog.Ascending | setup.py:136-148 | calendar order between neighbours orders every pair of letters |
| Catalog.WellFormedLetters | setup.py:136-148 | a well-formed list has one-letter codes and no repetition |
| Catalog.CatalogRuns | setup.py:136-148 | scrap_tw over any listed asset never fails a lookup and fetches no symbol twice |

## Left out

- Aggregator.ScrapTw returns the collected table. As written, setup.py:133 binds the concatenation to `df`, so `df_aux` stays empty, and setup.py:134 returns None. The model keeps the concatenation in the accumulator and returns it, which is what the docstring (setup.py:106-118) promises.
- Aggregator.ScrapTw names the row columns `exp_year` and `market_year`, as the tables do (setup.py:10-33). setup.py:129 and 131 write them as `expire_year` and `market-year`.
- Aggregator.MarketYearTag tags each contract with its own year, `init_year - i`. setup.py:131 passes `init_year - 1`; see Findings.
- `load_asset_price` uses the network. It is the parameter `fetch`, a function of the symbol and the period. Its failures, retries and exceptions are not modelled, and setup.py has no handler for them.
- `tz_convert('America/Sao_Paulo')` needs the time-zone database. It is the parameter `localize`. Only the cut to a date that follows it (setup.py:126) is modelled.
- pandas is not modelled. A DataFrame is a sequence of row records. A missing `market_year` column is the value None in every row of that frame.
- Prices are floats in the source and `real` in the model. They are copied and never computed with, so floating point is left out.
- sqlite3 is not modelled. Only the file's set of tables is: the `Database` class with a map from table name to table. Left out are SQL text and its parsing, cursors, transactions, and the connection that is never closed. Each table that provisioning creates starts empty, and no code in setup.py adds rows to any table.
- Schema.Database.Execute compares table names exactly. SQLite compares identifiers without regard to ASCII case, so on a file that already holds `cbot_corn` the statement for `CBOT_corn` (setup.py:37) does nothing in SQLite, while the model adds a second table; ProvisionEffect's "nothing else appears" is about exact names. An index or view of the same name makes the statement fail in SQLite; the model's file holds tables only.
- `download_futures_prices` (setup.py:136-148) only binds constants and returns None. Its constants are the `Catalog` module. No code in setup.py stores fetched prices.
- The module-level call at setup.py:151 is the script's entry point and is not modelled.
- src/app.py, the web front end, is not part of this model.

## Findings

| source | as written | input that shows it | evidently intended | confidence | as-written member | corrected member |
|---|---|---|---|---|---|---|
| setup.py:131 | `market_year_flag(init_year - 1, m)` tags every contract of the run with the label its letter has in year init_year - 1 | asset "ZC", expire_months ["U"], init_year 2024, lookback 1: contract ZCU2024 is tagged "2023/24" | `market_year_flag(init_year - i, m)`, the contract's own year: "2024/25" | high; not executed | Aggregator.StaleTagExample | Aggregator.MarketYearTag |
