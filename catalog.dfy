/** The assets download_futures_prices lists (setup.py:136-148): each
    ticker with the expire months of the contracts it trades. */
module Catalog {
  import opened MarketYear
  import opened Rows
  import opened Results
  import opened Aggregator

  datatype Asset = Asset(ticker: string, expireMonths: seq<string>)

  const CBOT_CORN: Asset := Asset("ZC", ["H", "K", "N", "U", "Z"])
  const B3_CORN: Asset := Asset("CCM", ["F", "H", "K", "N", "U", "X"])
  const CBOT_SOYBEANS: Asset := Asset("ZS", ["F", "H", "K", "N", "Q", "U", "X"])
  const CBOT_SOYBEANS_OIL: Asset := Asset("ZL", ["F", "H", "K", "N", "Q", "U", "V", "Z"])
  const CBOT_SOYBEANS_MEAL: Asset := Asset("ZM", ["F", "H", "K", "N", "Q", "U", "V", "Z"])

  const CATALOG: seq<Asset> := [CBOT_CORN, B3_CORN, CBOT_SOYBEANS, CBOT_SOYBEANS_OIL, CBOT_SOYBEANS_MEAL]

  /** The letters are valid month codes, in calendar order (so without
      repetition), and the asset gets a market-year column. */
  predicate WellFormed(a: Asset) {
    IsAgricultural(a.ticker) &&
    (forall k :: 0 <= k < |a.expireMonths| ==> IsMonthCode(a.expireMonths[k])) &&
    (forall k :: 0 <= k < |a.expireMonths| - 1 ==> MonthOf(a.expireMonths[k]) < MonthOf(a.expireMonths[k + 1]))
  }

  lemma CbotCornWellFormed()
    ensures WellFormed(CBOT_CORN)
  {
    var ms := CBOT_CORN.expireMonths;
    assert IsAgricultural(CBOT_CORN.ticker);
    assert forall k :: 0 <= k < |ms| ==> IsMonthCode(ms[k]);
    assert forall k :: 0 <= k < |ms| - 1 ==> MonthOf(ms[k]) < MonthOf(ms[k + 1]);
  }

  lemma B3CornWellFormed()
    ensures WellFormed(B3_CORN)
  {
    var ms := B3_CORN.expireMonths;
    assert IsAgricultural(B3_CORN.ticker);
    assert forall k :: 0 <= k < |ms| ==> IsMonthCode(ms[k]);
    assert forall k :: 0 <= k < |ms| - 1 ==> MonthOf(ms[k]) < MonthOf(ms[k + 1]);
  }

  lemma CbotSoybeansWellFormed()
    ensures WellFormed(CBOT_SOYBEANS)
  {
    var ms := CBOT_SOYBEANS.expireMonths;
    assert IsAgricultural(CBOT_SOYBEANS.ticker);
    assert forall k :: 0 <= k < |ms| ==> IsMonthCode(ms[k]);
    assert forall k :: 0 <= k < |ms| - 1 ==> MonthOf(ms[k]) < MonthOf(ms[k + 1]);
  }

  lemma CbotSoybeansOilWellFormed()
    ensures WellFormed(CBOT_SOYBEANS_OIL)
  {
    var ms := CBOT_SOYBEANS_OIL.expireMonths;
    assert IsAgricultural(CBOT_SOYBEANS_OIL.ticker);
    assert forall k :: 0 <= k < |ms| ==> IsMonthCode(ms[k]);
    assert forall k :: 0 <= k < |ms| - 1 ==> MonthOf(ms[k]) < MonthOf(ms[k + 1]);
  }

  lemma CbotSoybeansMealWellFormed()
    ensures WellFormed(CBOT_SOYBEANS_MEAL)
  {
    var ms := CBOT_SOYBEANS_MEAL.expireMonths;
    assert IsAgricultural(CBOT_SOYBEANS_MEAL.ticker);
    assert forall k :: 0 <= k < |ms| ==> IsMonthCode(ms[k]);
    assert forall k :: 0 <= k < |ms| - 1 ==> MonthOf(ms[k]) < MonthOf(ms[k + 1]);
  }

  /** Every listed asset is agricultural, uses valid letters only, and lists
      them in calendar order. */
  lemma CatalogWellFormed()
    ensures forall a :: a in CATALOG ==> WellFormed(a)
  {
    CbotCornWellFormed();
    B3CornWellFormed();
    CbotSoybeansWellFormed();
    CbotSoybeansOilWellFormed();
    CbotSoybeansMealWellFormed();
  }

  /** Calendar order, pair by pair, orders every two letters of the list. */
  lemma {:induction false} Ascending(a: Asset, k: nat, l: nat)
    requires WellFormed(a) && k < l < |a.expireMonths|
    ensures MonthOf(a.expireMonths[k]) < MonthOf(a.expireMonths[l])
    decreases l - k
  {
    if k + 1 < l {
      Ascending(a, k + 1, l);
    }
  }

  /** Calendar order rules out repetitions, and valid codes are single letters. */
  lemma WellFormedLetters(a: Asset)
    requires WellFormed(a)
    ensures SingleLetters(a.expireMonths) && Distinct(a.expireMonths)
  {
    forall k, l | 0 <= k < l < |a.expireMonths| ensures a.expireMonths[k] != a.expireMonths[l] {
      Ascending(a, k, l);
    }
  }

  /** scrap_tw on a listed asset: the run never fails on a lookup, and no
      contract symbol is fetched twice. */
  lemma CatalogRuns(a: Asset, initYear: int, lookback: int, period: int,
                    fetch: (string, int) -> seq<Bar>, localize: Timestamp -> Timestamp)
    requires a in CATALOG
    ensures Aggregate(a.ticker, Contracts(a.expireMonths, initYear, lookback), period, fetch, localize).Ok?
    ensures Distinct(Symbols(a.ticker, Contracts(a.expireMonths, initYear, lookback)))
  {
    CatalogWellFormed();
    WellFormedLetters(a);
    ValidLettersAggregate(a.ticker, a.expireMonths, initYear, lookback, period, fetch, localize);
    SymbolsDistinct(a.ticker, a.expireMonths, initYear, lookback);
  }
}
