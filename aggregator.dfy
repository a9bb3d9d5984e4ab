/** The contract enumeration and tagging loop `scrap_tw` (setup.py:94-134).
    For each of `lookback` expiry years, counting down from `init_year`, and
    each expire-month letter in list order, it fetches the contract's daily
    bars, truncates their times to dates, tags every row with the contract's
    letter and year and, for the agricultural tickers, with the contract's
    market year, and collects the frames into one table.

    The model follows the docstring (setup.py:106-118) where the code
    departs from it:
    - setup.py:131 passes `init_year - 1` to market_year_flag for every
      contract; the model tags each contract with its own year
      `init_year - i` (StaleMarketYearTag keeps the code as written);
    - setup.py:133 binds the concatenation to `df`, so `df_aux` stays empty,
      and setup.py:134 returns nothing; the model keeps the concatenation in
      the accumulator and returns it;
    - setup.py:129 and 131 name the columns `expire_year` and `market-year`;
      the model's rows use the table's column names `exp_year` and
      `market_year` (setup.py:10-21).
    The concatenation keeps the argument order of `pd.concat([df, df_aux])`:
    each new frame goes in front of the rows collected so far. */
module Aggregator {
  import opened Results
  import opened Decimal
  import opened MarketYear
  import opened Rows

  /** The tickers that get a market-year column (setup.py:131). */
  const AGRICULTURAL_TICKERS: seq<string> := ["ZC", "CCM", "ZS", "ZL", "ZM"]

  predicate IsAgricultural(ticker: string) {
    ticker in AGRICULTURAL_TICKERS
  }

  /** One futures contract of an asset: its expire-month letter and year. */
  datatype Contract = Contract(month: string, year: int)

  /** The contract symbol `f'{asset_name}{m}{init_year-i}'` (setup.py:124). */
  function Symbol(ticker: string, c: Contract): string {
    ticker + c.month + IntToString(c.year)
  }

  /** The contracts of one expiry year, in the order of the month list. */
  function YearBlock(months: seq<string>, year: int): (b: seq<Contract>)
    ensures |b| == |months|
    ensures forall k :: 0 <= k < |b| ==> b[k] == Contract(months[k], year)
  {
    seq(|months|, k requires 0 <= k < |months| => Contract(months[k], year))
  }

  /** The contracts in fetch order: `for i in range(lookback)` outside,
      `for m in expire_months` inside (setup.py:122-123). */
  function Contracts(months: seq<string>, initYear: int, lookback: int): seq<Contract>
    decreases lookback
  {
    if lookback <= 0 then []
    else Contracts(months, initYear, lookback - 1) + YearBlock(months, initYear - (lookback - 1))
  }

  function Symbols(ticker: string, cs: seq<Contract>): (s: seq<string>)
    ensures |s| == |cs|
    ensures forall p :: 0 <= p < |cs| ==> s[p] == Symbol(ticker, cs[p])
  {
    seq(|cs|, p requires 0 <= p < |cs| => Symbol(ticker, cs[p]))
  }

  /** The market-year column of one contract's frame: present only for the
      agricultural tickers, and computed from that contract's own year and
      letter. The lookup fails, as in Python, on an unknown letter. */
  function MarketYearTag(ticker: string, c: Contract): (r: Result<Option<string>, ClassifyError>)
    ensures r.Err? <==> IsAgricultural(ticker) && !IsMonthCode(c.month)
    ensures r.Err? ==> r.error == InvalidMonthCode(c.month)
    ensures r.Ok? ==> (r.value.Some? <==> IsAgricultural(ticker))
    ensures IsAgricultural(ticker) && IsMonthCode(c.month) ==>
      r == Ok(Some(CropYearLabel(CropYearOf(c.year, MonthOf(c.month)))))
  {
    if !IsAgricultural(ticker) then Ok(None)
    else
      var flag := MarketYearFlag(c.year, c.month);
      if flag.Ok? then Ok(Some(flag.value)) else Err(flag.error)
  }

  /** `row` is bar `bar` of contract `c` as setup.py:125-131 tags it: the
      calendar day of the bar's zone-converted time at midnight, without a
      zone; the contract's letter and year; the bar's prices; and `tag` as
      the market-year column. */
  predicate RowOfBar(row: ContractRow, bar: Bar, c: Contract, tag: Option<string>, localize: Timestamp -> Timestamp) {
    IsMidnightDate(row.time) && SameCalendarDay(row.time, localize(bar.time)) &&
    row.expMonth == c.month && row.expYear == c.year &&
    row.open == bar.open && row.high == bar.high && row.low == bar.low && row.close == bar.close &&
    row.marketYear == tag
  }

  /** One bar of contract `c` as a table row: its time zone-converted and
      truncated to a date (setup.py:125-126), tagged with the contract's
      letter and year (setup.py:128-129) and the market-year column. */
  function TagRow(bar: Bar, c: Contract, tag: Option<string>, localize: Timestamp -> Timestamp): (row: ContractRow)
    ensures RowOfBar(row, bar, c, tag, localize)
  {
    ContractRow(ToDate(localize(bar.time)), c.month, c.year, bar.open, bar.high, bar.low, bar.close, tag)
  }

  /** The tagging leaves no choice: the one row with those columns is TagRow's. */
  lemma RowOfBarUnique(row: ContractRow, bar: Bar, c: Contract, tag: Option<string>, localize: Timestamp -> Timestamp)
    requires RowOfBar(row, bar, c, tag, localize)
    ensures row == TagRow(bar, c, tag, localize)
  {
  }

  /** Every bar of contract `c`, tagged: the column assignments at setup.py:125-131. */
  function TagBars(bars: seq<Bar>, c: Contract, tag: Option<string>, localize: Timestamp -> Timestamp)
    : (rows: seq<ContractRow>)
    ensures |rows| == |bars|
    ensures forall j :: 0 <= j < |bars| ==>
      IsMidnightDate(rows[j].time) && SameCalendarDay(rows[j].time, localize(bars[j].time)) &&
      rows[j].expMonth == c.month && rows[j].expYear == c.year &&
      rows[j].open == bars[j].open && rows[j].high == bars[j].high &&
      rows[j].low == bars[j].low && rows[j].close == bars[j].close &&
      rows[j].marketYear == tag
  {
    seq(|bars|, j requires 0 <= j < |bars| => TagRow(bars[j], c, tag, localize))
  }

  /** The tagged frame of one contract, or the error of its market-year lookup. */
  function Frame(ticker: string, c: Contract, bars: seq<Bar>, localize: Timestamp -> Timestamp)
    : Result<seq<ContractRow>, ClassifyError>
  {
    match MarketYearTag(ticker, c)
    case Err(e) => Err(e)
    case Ok(tag) => Ok(TagBars(bars, c, tag, localize))
  }

  /** The bars the loader returns for contract `c`. */
  function BarsOf(ticker: string, c: Contract, period: int, fetch: (string, int) -> seq<Bar>): seq<Bar> {
    fetch(Symbol(ticker, c), period)
  }

  /** The table collected from the contracts `cs`, fetched in order: each
      frame goes in front of the earlier ones; the first contract whose
      market year cannot be computed aborts the whole run. */
  function Aggregate(ticker: string, cs: seq<Contract>, period: int,
                     fetch: (string, int) -> seq<Bar>, localize: Timestamp -> Timestamp)
    : Result<seq<ContractRow>, ClassifyError>
    decreases |cs|
  {
    if cs == [] then Ok([])
    else
      match Aggregate(ticker, cs[..|cs| - 1], period, fetch, localize)
      case Err(e) => Err(e)
      case Ok(earlier) =>
        var c := cs[|cs| - 1];
        match Frame(ticker, c, BarsOf(ticker, c, period, fetch), localize)
        case Err(e) => Err(e)
        case Ok(frame) => Ok(frame + earlier)
  }

  /** The market year a contract's rows should carry: its own label, for an
      agricultural ticker. */
  function OwnMarketYear(ticker: string, c: Contract): (tag: Option<string>)
    ensures tag.Some? <==> IsAgricultural(ticker) && IsMonthCode(c.month)
    ensures tag.Some? ==> tag.value == CropYearLabel(CropYearOf(c.year, MonthOf(c.month)))
  {
    if IsAgricultural(ticker) && IsMonthCode(c.month) then Some(MarketYearFlag(c.year, c.month).value) else None
  }

  /** The number of bars fetched for all contracts of `cs`. */
  function TotalBars(ticker: string, cs: seq<Contract>, period: int, fetch: (string, int) -> seq<Bar>): nat
    decreases |cs|
  {
    if cs == [] then 0
    else TotalBars(ticker, cs[..|cs| - 1], period, fetch) + |BarsOf(ticker, cs[|cs| - 1], period, fetch)|
  }

  /** scrap_tw(asset_name, expire_months, init_year, period, lookback), with
      the price loader `load_asset_price` as `fetch` and the conversion to
      the America/Sao_Paulo zone as `localize`. */
  method ScrapTw(assetName: string, expireMonths: seq<string>, initYear: int, period: int, lookback: int,
                 fetch: (string, int) -> seq<Bar>, localize: Timestamp -> Timestamp)
    returns (r: Result<seq<ContractRow>, ClassifyError>)
    ensures r == Aggregate(assetName, Contracts(expireMonths, initYear, lookback), period, fetch, localize)
  {
    var dfAux: seq<ContractRow> := [];
    var i := 0;
    EmptyRun(assetName, expireMonths, initYear, period, fetch, localize);
    while i < lookback
      invariant 0 <= i && (i <= lookback || i == 0)
      invariant Aggregate(assetName, Contracts(expireMonths, initYear, i), period, fetch, localize) == Ok(dfAux)
    {
      var year := ScrapYear(assetName, expireMonths, initYear, i, period, fetch, localize, dfAux);
      if year.Err? {
        FailingYearFailsRun(assetName, expireMonths, initYear, i, lookback, period, fetch, localize);
        r := year;
        return;
      }
      dfAux := year.value;
      i := i + 1;
    }
    NoYearsLeft(expireMonths, initYear, i, lookback);
    r := Ok(dfAux);
  }

  /** One pass of the inner loop of scrap_tw (setup.py:123-133): the letters
      of the expiry year init_year - i, fetched and tagged in list order,
      each frame put in front of the rows `dfAux` collected so far. */
  method ScrapYear(assetName: string, expireMonths: seq<string>, initYear: int, i: nat, period: int,
                   fetch: (string, int) -> seq<Bar>, localize: Timestamp -> Timestamp, dfAux: seq<ContractRow>)
    returns (r: Result<seq<ContractRow>, ClassifyError>)
    requires Aggregate(assetName, Contracts(expireMonths, initYear, i), period, fetch, localize) == Ok(dfAux)
    ensures r == Aggregate(assetName, Contracts(expireMonths, initYear, i + 1), period, fetch, localize)
  {
    ghost var done := Contracts(expireMonths, initYear, i);
    ghost var block := YearBlock(expireMonths, initYear - i);
    var acc := dfAux;
    var k := 0;
    YearStart(done, block);
    while k < |expireMonths|
      invariant 0 <= k <= |expireMonths|
      invariant Aggregate(assetName, done + block[..k], period, fetch, localize) == Ok(acc)
    {
      var m := expireMonths[k];
      var bars := fetch(assetName + m + IntToString(initYear - i), period);
      var tag := MarketYearTag(assetName, Contract(m, initYear - i));
      if tag.Err? {
        FailingLetterFailsYear(assetName, expireMonths, initYear, i, k, period, fetch, localize);
        r := Err(tag.error);
        return;
      }
      var df := TagBars(bars, Contract(m, initYear - i), tag.value, localize);
      TaggedLetterExtendsRun(assetName, expireMonths, initYear, i, k, period, fetch, localize, acc);
      acc := df + acc;
      k := k + 1;
    }
    YearEnd(expireMonths, initYear, i);
    r := Ok(acc);
  }

  lemma EmptyRun(ticker: string, months: seq<string>, initYear: int, period: int,
                 fetch: (string, int) -> seq<Bar>, localize: Timestamp -> Timestamp)
    ensures Aggregate(ticker, Contracts(months, initYear, 0), period, fetch, localize) == Ok([])
  {
  }

  lemma YearStart<T>(done: seq<T>, block: seq<T>)
    ensures done + block[..0] == done
  {
    assert block[..0] == [];
  }

  /** All letters of year init_year - i fetched: the first i + 1 years are done. */
  lemma YearEnd(months: seq<string>, initYear: int, i: nat)
    ensures Contracts(months, initYear, i) + YearBlock(months, initYear - i)[..|months|]
         == Contracts(months, initYear, i + 1)
  {
    var block := YearBlock(months, initYear - i);
    assert block[..|months|] == block;
  }

  lemma NoYearsLeft(months: seq<string>, initYear: int, i: int, lookback: int)
    requires 0 <= i && (i <= lookback || i == 0) && i >= lookback
    ensures Contracts(months, initYear, i) == Contracts(months, initYear, lookback)
  {
  }

  /** A year whose run fails makes the whole run fail the same way. */
  lemma FailingYearFailsRun(ticker: string, months: seq<string>, initYear: int, i: nat, lookback: int,
                            period: int, fetch: (string, int) -> seq<Bar>, localize: Timestamp -> Timestamp)
    requires i < lookback
    requires Aggregate(ticker, Contracts(months, initYear, i + 1), period, fetch, localize).Err?
    ensures Aggregate(ticker, Contracts(months, initYear, lookback), period, fetch, localize)
         == Aggregate(ticker, Contracts(months, initYear, i + 1), period, fetch, localize)
  {
    var all := Contracts(months, initYear, lookback);
    var upTo := Contracts(months, initYear, i + 1);
    ContractsExtend(months, initYear, i + 1, lookback);
    AggregateErrPrefix(ticker, all, |upTo|, period, fetch, localize);
  }

  /** A contract whose market year cannot be computed ends its year's run with its error. */
  lemma FailingLetterFailsYear(ticker: string, months: seq<string>, initYear: int, i: nat, k: nat,
                               period: int, fetch: (string, int) -> seq<Bar>, localize: Timestamp -> Timestamp)
    requires k < |months|
    requires Aggregate(ticker, Contracts(months, initYear, i) + YearBlock(months, initYear - i)[..k],
                       period, fetch, localize).Ok?
    requires MarketYearTag(ticker, Contract(months[k], initYear - i)).Err?
    ensures Aggregate(ticker, Contracts(months, initYear, i + 1), period, fetch, localize)
         == Err(MarketYearTag(ticker, Contract(months[k], initYear - i)).error)
  {
    var done := Contracts(months, initYear, i);
    var block := YearBlock(months, initYear - i);
    var c := Contract(months[k], initYear - i);
    SnocSlice(done, block, k);
    AggregateSnoc(ticker, done + block[..k], c, period, fetch, localize);
    var year := Contracts(months, initYear, i + 1);
    var upTo := done + block[..k + 1];
    assert year[..|upTo|] == upTo;
    AggregateErrPrefix(ticker, year, |upTo|, period, fetch, localize);
  }

  /** A contract whose market year is known adds its tagged frame in front. */
  lemma TaggedLetterExtendsRun(ticker: string, months: seq<string>, initYear: int, i: nat, k: nat,
                               period: int, fetch: (string, int) -> seq<Bar>, localize: Timestamp -> Timestamp,
                               acc: seq<ContractRow>)
    requires k < |months|
    requires Aggregate(ticker, Contracts(months, initYear, i) + YearBlock(months, initYear - i)[..k],
                       period, fetch, localize) == Ok(acc)
    requires MarketYearTag(ticker, Contract(months[k], initYear - i)).Ok?
    ensures Aggregate(ticker, Contracts(months, initYear, i) + YearBlock(months, initYear - i)[..k + 1],
                      period, fetch, localize)
         == Ok(TagBars(fetch(ticker + months[k] + IntToString(initYear - i), period), Contract(months[k], initYear - i),
                       MarketYearTag(ticker, Contract(months[k], initYear - i)).value, localize) + acc)
  {
    var done := Contracts(months, initYear, i);
    var block := YearBlock(months, initYear - i);
    var c := Contract(months[k], initYear - i);
    SnocSlice(done, block, k);
    AggregateSnoc(ticker, done + block[..k], c, period, fetch, localize);
  }

  lemma SnocSlice<T>(done: seq<T>, block: seq<T>, k: nat)
    requires k < |block|
    ensures done + block[..k + 1] == (done + block[..k]) + [block[k]]
  {
    assert block[..k + 1] == block[..k] + [block[k]];
  }

  /** One more contract: the run so far, then that contract's frame in front. */
  lemma AggregateSnoc(ticker: string, cs: seq<Contract>, c: Contract, period: int,
                      fetch: (string, int) -> seq<Bar>, localize: Timestamp -> Timestamp)
    ensures Aggregate(ticker, cs + [c], period, fetch, localize) ==
      match Aggregate(ticker, cs, period, fetch, localize)
      case Err(e) => Err(e)
      case Ok(earlier) =>
        match Frame(ticker, c, BarsOf(ticker, c, period, fetch), localize)
        case Err(e) => Err(e)
        case Ok(frame) => Ok(frame + earlier)
  {
    assert (cs + [c])[..|cs|] == cs;
  }

  // ---------------------------------------------------------------------
  // Enumeration

  /** Contracts(a) is the start of Contracts(b) when a <= b. */
  lemma {:induction false} ContractsExtend(months: seq<string>, initYear: int, a: nat, b: int)
    requires a <= b
    ensures |Contracts(months, initYear, a)| <= |Contracts(months, initYear, b)|
    ensures Contracts(months, initYear, b)[..|Contracts(months, initYear, a)|] == Contracts(months, initYear, a)
    decreases b
  {
    if a < b {
      ContractsExtend(months, initYear, a, b - 1);
    }
  }

  /** Exactly lookback * |months| contracts. */
  lemma {:induction false} ContractsLength(months: seq<string>, initYear: int, lookback: nat)
    ensures |Contracts(months, initYear, lookback)| == lookback * |months|
  {
    if lookback > 0 {
      ContractsLength(months, initYear, lookback - 1);
      assert lookback * |months| == (lookback - 1) * |months| + |months|;
    }
  }

  /** Position i * |months| + k holds letter k of year init_year - i: the
      years run outside and descend, the letters run inside in list order. */
  lemma {:induction false} ContractAt(months: seq<string>, initYear: int, lookback: nat, i: nat, k: nat)
    requires i < lookback && k < |months|
    ensures i * |months| + k < |Contracts(months, initYear, lookback)|
    ensures Contracts(months, initYear, lookback)[i * |months| + k] == Contract(months[k], initYear - i)
  {
    var n := |months|;
    var prev := Contracts(months, initYear, lookback - 1);
    ContractsLength(months, initYear, lookback - 1);
    if i < lookback - 1 {
      ContractAt(months, initYear, lookback - 1, i, k);
    } else {
      assert i * n + k == |prev| + k;
    }
  }

  /** Every contract has a listed letter and one of the lookback years. */
  lemma {:induction false} ContractsRange(months: seq<string>, initYear: int, lookback: int)
    ensures forall c :: c in Contracts(months, initYear, lookback) ==>
      c.month in months && initYear - lookback < c.year <= initYear
    decreases lookback
  {
    if lookback > 0 {
      ContractsRange(months, initYear, lookback - 1);
    }
  }

  predicate Distinct<T(==)>(s: seq<T>) {
    forall p, q :: 0 <= p < q < |s| ==> s[p] != s[q]
  }

  /** With a repetition-free month list no contract is fetched twice. */
  lemma {:induction false} ContractsDistinct(months: seq<string>, initYear: int, lookback: int)
    requires Distinct(months)
    ensures Distinct(Contracts(months, initYear, lookback))
    decreases lookback
  {
    if lookback > 0 {
      ContractsDistinct(months, initYear, lookback - 1);
      ContractsRange(months, initYear, lookback - 1);
      var prev := Contracts(months, initYear, lookback - 1);
      var block := YearBlock(months, initYear - (lookback - 1));
      var all := prev + block;
      forall p, q | 0 <= p < q < |all| ensures all[p] != all[q] {
        if q >= |prev| && p < |prev| {
          assert all[p] in prev;
        }
      }
    }
  }

  /** A symbol determines its contract when the letters are single characters. */
  lemma SymbolInjective(ticker: string, c: Contract, d: Contract)
    requires |c.month| == 1 && |d.month| == 1
    requires Symbol(ticker, c) == Symbol(ticker, d)
    ensures c == d
  {
    var s := Symbol(ticker, c);
    var t := |ticker|;
    assert c.month == s[t..t + 1] == d.month;
    assert IntToString(c.year) == s[t + 1..] == IntToString(d.year);
    IntToStringInjective(c.year, d.year);
  }

  predicate SingleLetters(months: seq<string>) {
    forall k :: 0 <= k < |months| ==> |months[k]| == 1
  }

  /** The symbols scrap_tw fetches: lookback * |months| of them, and symbol
      i * |months| + k is ticker + letter k + str(init_year - i). */
  lemma Enumeration(ticker: string, months: seq<string>, initYear: int, lookback: nat)
    ensures |Symbols(ticker, Contracts(months, initYear, lookback))| == lookback * |months|
    ensures forall i, k :: 0 <= i < lookback && 0 <= k < |months| ==>
      i * |months| + k < |Symbols(ticker, Contracts(months, initYear, lookback))| &&
      Symbols(ticker, Contracts(months, initYear, lookback))[i * |months| + k]
        == ticker + months[k] + IntToString(initYear - i)
  {
    ContractsLength(months, initYear, lookback);
    SymbolsAt(ticker, months, initYear, lookback);
  }

  lemma SymbolsAt(ticker: string, months: seq<string>, initYear: int, lookback: nat)
    ensures forall i, k :: 0 <= i < lookback && 0 <= k < |months| ==>
      i * |months| + k < |Symbols(ticker, Contracts(months, initYear, lookback))| &&
      Symbols(ticker, Contracts(months, initYear, lookback))[i * |months| + k]
        == ticker + months[k] + IntToString(initYear - i)
  {
    forall i: nat, k: nat | i < lookback && k < |months| {
      SymbolAt(ticker, months, initYear, lookback, i, k);
    }
  }

  lemma SymbolAt(ticker: string, months: seq<string>, initYear: int, lookback: nat, i: nat, k: nat)
    requires i < lookback && k < |months|
    ensures i * |months| + k < |Symbols(ticker, Contracts(months, initYear, lookback))|
    ensures Symbols(ticker, Contracts(months, initYear, lookback))[i * |months| + k]
      == ticker + months[k] + IntToString(initYear - i)
  {
    var cs := Contracts(months, initYear, lookback);
    var p := i * |months| + k;
    ContractAt(months, initYear, lookback, i, k);
    assert Symbols(ticker, cs)[p] == Symbol(ticker, cs[p]);
  }

  /** With a repetition-free list of one-letter months, no symbol is fetched twice. */
  lemma SymbolsDistinct(ticker: string, months: seq<string>, initYear: int, lookback: int)
    requires SingleLetters(months) && Distinct(months)
    ensures Distinct(Symbols(ticker, Contracts(months, initYear, lookback)))
  {
    var cs := Contracts(months, initYear, lookback);
    ContractsDistinct(months, initYear, lookback);
    ContractsRange(months, initYear, lookback);
    var syms := Symbols(ticker, cs);
    forall p, q | 0 <= p < q < |syms| ensures syms[p] != syms[q] {
      assert cs[p] in cs && cs[q] in cs;
      if syms[p] == syms[q] {
        SymbolInjective(ticker, cs[p], cs[q]);
      }
    }
  }

  // ---------------------------------------------------------------------
  // Aggregation

  /** Once a prefix of the contracts has failed, the whole run fails the same way. */
  lemma {:induction false} AggregateErrPrefix(ticker: string, cs: seq<Contract>, n: nat, period: int,
                                              fetch: (string, int) -> seq<Bar>, localize: Timestamp -> Timestamp)
    requires n <= |cs|
    requires Aggregate(ticker, cs[..n], period, fetch, localize).Err?
    ensures Aggregate(ticker, cs, period, fetch, localize) == Aggregate(ticker, cs[..n], period, fetch, localize)
    decreases |cs|
  {
    if n < |cs| {
      var front := cs[..|cs| - 1];
      assert front[..n] == cs[..n];
      AggregateErrPrefix(ticker, front, n, period, fetch, localize);
    } else {
      assert cs[..n] == cs;
    }
  }

  /** The run succeeds exactly when no market-year lookup fails; when it
      fails, it reports the letter of the first contract whose lookup fails. */
  lemma {:induction false} AggregateOutcome(ticker: string, cs: seq<Contract>, period: int,
                                            fetch: (string, int) -> seq<Bar>, localize: Timestamp -> Timestamp)
    ensures Aggregate(ticker, cs, period, fetch, localize).Ok?
        <==> !IsAgricultural(ticker) || forall c :: c in cs ==> IsMonthCode(c.month)
    ensures Aggregate(ticker, cs, period, fetch, localize).Err? ==>
      exists n :: 0 <= n < |cs| && !IsMonthCode(cs[n].month) &&
        (forall j :: 0 <= j < n ==> IsMonthCode(cs[j].month)) &&
        Aggregate(ticker, cs, period, fetch, localize).error == InvalidMonthCode(cs[n].month)
    decreases |cs|
  {
    if cs != [] {
      var front := cs[..|cs| - 1];
      var c := cs[|cs| - 1];
      AggregateOutcome(ticker, front, period, fetch, localize);
      assert forall x :: x in cs <==> x in front || x == c;
      if Aggregate(ticker, front, period, fetch, localize).Err? {
        var n :| 0 <= n < |front| && !IsMonthCode(front[n].month) &&
          (forall j :: 0 <= j < n ==> IsMonthCode(front[j].month)) &&
          Aggregate(ticker, front, period, fetch, localize).error == InvalidMonthCode(front[n].month);
        assert cs[n] == front[n];
      } else if Aggregate(ticker, cs, period, fetch, localize).Err? {
        assert forall j :: 0 <= j < |front| ==> IsMonthCode(cs[j].month) by {
          forall j | 0 <= j < |front| ensures IsMonthCode(cs[j].month) {
            assert front[j] in front;
          }
        }
      }
    }
  }

  /** Every row of a successful run comes from a bar of one of the run's
      contracts and carries that contract's own letter, year and market
      year, with its time truncated to a date; every fetched bar of every
      contract is in the table; and nothing else is. */
  lemma {:induction false} AggregateRows(ticker: string, cs: seq<Contract>, period: int,
                                         fetch: (string, int) -> seq<Bar>, localize: Timestamp -> Timestamp,
                                         rows: seq<ContractRow>)
    requires Aggregate(ticker, cs, period, fetch, localize) == Ok(rows)
    ensures forall row :: row in rows ==>
      exists c :: c in cs &&
        row.expMonth == c.month && row.expYear == c.year &&
        row.marketYear == OwnMarketYear(ticker, c) && IsMidnightDate(row.time) &&
        exists bar :: bar in BarsOf(ticker, c, period, fetch) && row == TagRow(bar, c, OwnMarketYear(ticker, c), localize)
    ensures forall c, bar :: c in cs && bar in BarsOf(ticker, c, period, fetch) ==>
      TagRow(bar, c, OwnMarketYear(ticker, c), localize) in rows
    ensures |rows| == TotalBars(ticker, cs, period, fetch)
    decreases |cs|
  {
    if cs != [] {
      var front := cs[..|cs| - 1];
      var c := cs[|cs| - 1];
      var earlier := Aggregate(ticker, front, period, fetch, localize).value;
      AggregateRows(ticker, front, period, fetch, localize, earlier);
      var bars := BarsOf(ticker, c, period, fetch);
      var tag := MarketYearTag(ticker, c).value;
      assert tag == OwnMarketYear(ticker, c);
      var frame := seq(|bars|, j requires 0 <= j < |bars| => TagRow(bars[j], c, tag, localize));
      assert rows == frame + earlier;
      assert forall x :: x in cs <==> x in front || x == c;
      forall row | row in frame
        ensures exists bar :: bar in bars && row == TagRow(bar, c, OwnMarketYear(ticker, c), localize)
      {
        var j :| 0 <= j < |frame| && frame[j] == row;
        assert bars[j] in bars;
      }
      forall bar | bar in bars ensures TagRow(bar, c, OwnMarketYear(ticker, c), localize) in rows {
        var j :| 0 <= j < |bars| && bars[j] == bar;
        assert frame[j] in rows;
      }
    }
  }

  /** A run over the contracts scrap_tw enumerates, for an asset whose
      letters are all valid, succeeds (AggregateRows then says what its rows are). */
  lemma ValidLettersAggregate(ticker: string, months: seq<string>, initYear: int, lookback: int, period: int,
                              fetch: (string, int) -> seq<Bar>, localize: Timestamp -> Timestamp)
    requires forall k :: 0 <= k < |months| ==> IsMonthCode(months[k])
    ensures Aggregate(ticker, Contracts(months, initYear, lookback), period, fetch, localize).Ok?
  {
    ContractsRange(months, initYear, lookback);
    AggregateOutcome(ticker, Contracts(months, initYear, lookback), period, fetch, localize);
  }

  // ---------------------------------------------------------------------
  // The code as written at setup.py:131

  /** The market-year column as setup.py:131 computes it: with the year
      `init_year - 1` for every contract, whatever its own year. */
  function StaleMarketYearTag(ticker: string, m: string, initYear: int): Result<Option<string>, ClassifyError> {
    MarketYearTag(ticker, Contract(m, initYear - 1))
  }

  lemma CropYearOfInjective(y1: int, y2: int, month: int)
    requires 1 <= month <= 12
    requires CropYearOf(y1, month) == CropYearOf(y2, month)
    ensures y1 == y2
  {
  }

  /** Contracts of one letter in different years get different labels. */
  lemma OtherYearOtherLabel(m: string, y1: int, y2: int)
    requires IsMonthCode(m) && y1 >= 10 && y2 >= 10 && y1 != y2
    ensures MarketYearFlag(y1, m) != MarketYearFlag(y2, m)
  {
    var month := MonthOf(m);
    if CropYearOf(y1, month) == CropYearOf(y2, month) {
      CropYearOfInjective(y1, y2, month);
      assert false;
    }
    SameLabelIffSameCropYear(y1, m, y2, m);
  }

  lemma TagsDifferWithLabels(ticker: string, m: string, y1: int, y2: int)
    requires IsAgricultural(ticker) && IsMonthCode(m)
    requires MarketYearFlag(y1, m) != MarketYearFlag(y2, m)
    ensures MarketYearTag(ticker, Contract(m, y1)) != MarketYearTag(ticker, Contract(m, y2))
  {
  }

  /** Two contracts of one letter get the same market-year tag exactly when
      they expire in the same year. */
  lemma TagIdentifiesYear(ticker: string, m: string, y1: int, y2: int)
    requires IsAgricultural(ticker) && IsMonthCode(m)
    requires y1 >= 10 && y2 >= 10
    ensures MarketYearTag(ticker, Contract(m, y1)) == MarketYearTag(ticker, Contract(m, y2)) <==> y1 == y2
  {
    if y1 != y2 {
      OtherYearOtherLabel(m, y1, y2);
      TagsDifferWithLabels(ticker, m, y1, y2);
    }
  }

  /** As written, every contract of a run from init_year is tagged with the
      label its letter has in year init_year - 1: right for a contract that
      expires in init_year - 1 (the second year of the lookback) and wrong
      for a contract of any other year. */
  lemma StaleTagRightOnlyInSecondYear(ticker: string, m: string, initYear: int, year: int)
    requires IsAgricultural(ticker) && IsMonthCode(m)
    requires initYear >= 11 && year >= 10
    ensures StaleMarketYearTag(ticker, m, initYear) == MarketYearTag(ticker, Contract(m, year))
        <==> year == initYear - 1
  {
    var previous := initYear - 1;
    StaleTagIsPreviousYearTag(ticker, m, initYear, previous);
    TagIdentifiesYear(ticker, m, previous, year);
  }

  lemma StaleTagIsPreviousYearTag(ticker: string, m: string, initYear: int, previous: int)
    requires previous == initYear - 1
    ensures StaleMarketYearTag(ticker, m, initYear) == MarketYearTag(ticker, Contract(m, previous))
  {
  }

  /** The first contract of a corn run from 2024, ZCU2024, expires in the
      2024/25 crop year but is tagged 2023/24 as written. */
  lemma StaleTagExample()
    ensures StaleMarketYearTag("ZC", "U", 2024) == Ok(Some("2023/24"))
    ensures MarketYearTag("ZC", Contract("U", 2024)) == Ok(Some("2024/25"))
  {
    assert IsAgricultural("ZC");
    SeptemberAndJanuaryLabels();
  }
}
